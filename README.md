# SilentKey vault core in Dafny

This project models the core of SilentKey, a local password-protected secret vault for macOS and iOS, and proves properties of that model. The model covers:

- **EncryptionManager**: an empty password is refused; otherwise key derivation runs. Items are JSON-encoded, then sealed. Containers carry their own salt.
- **FileStorage**: two directories.
  - The vault directory holds `<uuid>.vault` ciphertexts and `metadata.json`.
  - The trash directory holds `<uuid>.trash` ciphertexts, each with an `<uuid>.meta` record that expires 30 days after deletion.
  - Operations: save, load, move to trash and back, permanent delete, listing, expiry cleanup, emptying, whole-vault backup and restore, metadata.
- **VaultManager**: the locked/unlocked state and the in-memory master key, plus create, read, update, delete, list, backup and restore on top of the store.
- **SecretItem and SecretCategory**: the item record, its derived category and icon, validation, search text, and the protocol's settable fields.
- **UpdaterService**: semantic-version comparison, the appcast XML parser delegate, and the decision to announce an update.
- **Plugin system**: the plugin registry, the actions of the three example plugins, banking validation, and the template registry.
- **PasswordGenerator.Configuration**: length clamping and the `strong` and `pin` presets.

## Modelling choices

**Bytes are symbolic.** A `Data` value records how it was made:

- `Json(v)` is the JSON encoding of `v`.
- `Sealed(key, plain)` is AES ciphertext.
- `Opaque(bytes)` is anything else.

A key is `DerivedKey(password, salt)`. As a result, decoding inverts encoding exactly, and opening a ciphertext with any other key fails. No axioms are needed for either.

**Directories are maps.** Each directory is a map from file names to contents. A name is already split into base name and extension, the way `pathExtension` splits it. A UUID is its canonical upper-case `uuidString`. `UUID(uuidString:)` accepts either letter case.

**Things outside the core become parameters.** These are:

- generated salts and `UUID()`s;
- the clock (`Date()`, in whole seconds);
- the bundle version;
- the plugins' built-in templates;
- the callbacks `XMLParser` makes.

**Unordered things stay unordered.** Directory listings are sets, because Foundation returns them in no fixed order. Loops over listings choose elements nondeterministically.

### Behaviour of the code that the model keeps

- **`setup`** writes the new metadata, with the new salt, before it refuses an empty password. The refused call therefore still replaces an existing vault's salt.
- **`unlock`:**
  - It does not check the password: any non-empty password unlocks.
  - A wrong password shows only as an authentication failure on the next read (`Vaults.SetupCreateUnlockWrongPassword`).
  - `restoreBackup` likewise accepts any non-empty password.
- **`emptyTrash`** stops at the first failing delete. It also never removes files that the listing does not show, such as an orphaned `.meta` file or a name that is not canonical.
- **`restoreFromTrash`:**
  - When the original slot is taken, the item goes under a fresh id, but the item keeps its internal `id`.
  - `newName` is ignored.
- **The `pin` preset** asks for length 6, which the clamp raises to 8 (`PasswordGenerator.Pin`).
- **`update`** fails on a corrupt metadata file only after the item has already been saved.

## Model

| member | source | states |
|---|---|---|
| Uuids.ParseUuid | Sources/Core/Storage/FileStorage.swift:157-160 | accepts exactly 8-4-4-4-12 hex text in either case and yields the upper-cased UUID |
| Uuids.ParseCanonical | Sources/Core/Storage/FileStorage.swift:39 | parsing a `uuidString` gives back the same UUID |
| Uuids.ParseIsIdentityIffCanonical | Sources/Core/Storage/FileStorage.swift:157-160 | parsing returns the text itself iff the text is canonical |
| SecretCategories.RawValue | Sources/Core/Protocols/SecretItemProtocol.swift:55-66 | every category has a non-empty raw value, the text it is encoded as |
| SecretCategories.FromRawValue | Sources/Core/Protocols/SecretItemProtocol.swift:55-66 | a decoded category has exactly that raw value |
| SecretCategories.RawValueRoundTrip | Sources/Core/Protocols/SecretItemProtocol.swift:55-66 | decoding a category's raw value gives the category back |
| SecretCategories.RawValuesDistinct | Sources/Core/Protocols/SecretItemProtocol.swift:55-66 | no two categories share a raw value |
| SecretCategories.Icon | Sources/Core/Protocols/SecretItemProtocol.swift:68-82 | every category has a non-empty SF Symbol name |
| SecretCategories.IconsDistinct | Sources/Core/Protocols/SecretItemProtocol.swift:68-82 | no two categories share an icon |
| SecretCategories.AllCasesComplete | Sources/Core/Protocols/SecretItemProtocol.swift:55-66 | the constant `AllCases`, which is `allCases`, lists all 11 categories, each once |
| Secrets.TypeRawValue | Sources/Core/Models/SecretItem.swift:9-15 | every secret type has a non-empty raw value, the text it is encoded as |
| Secrets.TypeRawValuesDistinct | Sources/Core/Models/SecretItem.swift:9-15 | no two secret types share a raw value |
| Secrets.NewSecretItem | Sources/Core/Models/SecretItem.swift:43-63 | every field of the new item is the argument passed for it |
| Secrets.NewSecretItemDefaults | Sources/Core/Models/SecretItem.swift:48-50 | by default an item has no notes, no tags and is not a favourite |
| Secrets.Category | Sources/Core/Models/SecretItem.swift:29-37 | an item's category is one of apiKey, token, password, sshKey, custom |
| Secrets.CategoryInjective | Sources/Core/Models/SecretItem.swift:29-37 | different secret types have different categories |
| Secrets.NoBankingCategory | Sources/Core/Models/SecretItem.swift:29-37 | no secret item is a bank account or a credit card |
| Secrets.IconName | Sources/Core/Models/SecretItem.swift:39-41 | the item's icon is its category's icon |
| Secrets.IconNameIdentifiesType | Sources/Core/Models/SecretItem.swift:29-41 | items of different secret types show different icons |
| Secrets.Validate | Sources/Core/Models/SecretItem.swift:69-71 | validation fails, with `invalidTitle`, iff the title is empty |
| Secrets.SearchableText | Sources/Core/Models/SecretItem.swift:73-75 | the text is the title, one space, then the notes or nothing, with that length |
| Secrets.ApplyUpdate | Sources/Core/Protocols/SecretItemProtocol.swift:15-38 | a setter changes exactly its property; id, creation date, category and ciphertext stay |
| Secrets.ApplyUpdates | Sources/Core/Protocols/SecretItemProtocol.swift:15-38 | any sequence of setters keeps id, creation date and category |
| Codec.NewVaultMetadata | Sources/Core/Storage/FileStorage.swift:302-307 | new metadata keeps the salt and version and has both dates at the current time |
| Codec.DecodeItem | Sources/Core/Crypto/EncryptionManager.swift:49-50 | decoding succeeds exactly on an item's encoding and returns that item |
| Codec.DecodeVaultMetadata | Sources/Core/Storage/FileStorage.swift:289-290 | decoding succeeds exactly on a metadata encoding and returns that metadata |
| Codec.DecodeTrashMetadata | Sources/Core/Storage/FileStorage.swift:204-205 | decoding succeeds exactly on a trash-metadata encoding |
| Codec.DecodeBackup | Sources/Core/Storage/FileStorage.swift:259 | decoding succeeds exactly on a backup encoding |
| Encryption.AesDecrypt | Sources/Core/Crypto/EncryptionManager.swift:48 | opening succeeds iff the ciphertext was sealed under that key, and yields its plaintext |
| Encryption.DeriveKey | Sources/Core/Crypto/EncryptionManager.swift:22-28 | fails with `invalidPassword` iff the password is empty, else yields the derived key |
| Encryption.DeriveKeyInjective | Sources/Core/Crypto/EncryptionManager.swift:22-28 | two derivations agree iff password and salt agree |
| Encryption.Encrypt | Sources/Core/Crypto/EncryptionManager.swift:35-39 | the ciphertext opens under the key to the item's JSON encoding |
| Encryption.Decrypt | Sources/Core/Crypto/EncryptionManager.swift:47-51 | success means the input is that item encrypted under the key; cipher and decoding failures propagate |
| Encryption.DecryptEncrypt | Sources/Core/Crypto/EncryptionManager.swift:35-51 | decrypting an encrypted item under the same key gives the item back |
| Encryption.DecryptWithOtherKey | Sources/Core/Crypto/EncryptionManager.swift:47-51 | decrypting under any other key fails authentication |
| Encryption.WrongPasswordDetected | Sources/Core/Crypto/EncryptionManager.swift:22-51 | a different non-empty password over the same salt fails at decryption |
| Encryption.EncryptWithNewSalt | Sources/Core/Crypto/EncryptionManager.swift:54-59 | fails iff the password is empty; the container has the new salt and opens under that password and salt |
| Encryption.DecryptContainer | Sources/Core/Crypto/EncryptionManager.swift:62-65 | an empty password fails; otherwise it opens the ciphertext with the key from the container's salt |
| Encryption.ContainerRoundTrip | Sources/Core/Crypto/EncryptionManager.swift:54-65 | a container decrypts with its password to the original data |
| Encryption.ContainerWrongPassword | Sources/Core/Crypto/EncryptionManager.swift:54-65 | a container opened with another non-empty password fails authentication |
| Text.Split | Sources/SilentKey/Services/UpdaterService.swift:143 | the pieces are non-empty and contain no separator |
| Text.SplitNoSep | Sources/SilentKey/Services/UpdaterService.swift:143 | a non-empty text without the separator is a single piece, itself |
| Text.SplitAtSep | Sources/SilentKey/Services/UpdaterService.swift:143 | a separator splits the text into the pieces before it followed by the pieces after it |
| Text.SplitKeepsEverythingElse | Sources/SilentKey/Services/UpdaterService.swift:143 | joining the pieces gives the string with its separators deleted |
| Text.ParseInt | Sources/SilentKey/Services/UpdaterService.swift:143-144 | `Int(s)` succeeds iff the text is an optional `+` or `-` followed by at least one digit and the signed decimal value fits in 64 bits, and then it is that value |
| Text.ParseShowInt | Sources/SilentKey/Services/UpdaterService.swift:143-144 | the decimal text of every 64-bit integer parses back to it |
| Text.CompactInts | Sources/SilentKey/Services/UpdaterService.swift:143-144 | `compactMap` never yields more numbers than pieces; the lemmas below give its meaning |
| Text.CompactIntsSource | Sources/SilentKey/Services/UpdaterService.swift:143-144 | the k-th number is the value of some piece that parses |
| Text.CompactIntsSound | Sources/SilentKey/Services/UpdaterService.swift:143-144 | every number `compactMap` yields is the value of some piece |
| Text.CompactIntsAllOrNone | Sources/SilentKey/Services/UpdaterService.swift:143-144 | when every piece parses there is one number per piece; when none parses there are none |
| Text.CompactIntsAppend | Sources/SilentKey/Services/UpdaterService.swift:143-144 | `compactMap` over two runs of pieces is the concatenation of the two results |
| Text.CompactIntsSplice | Sources/SilentKey/Services/UpdaterService.swift:143-144 | each piece contributes its value in place when it parses, and nothing when it does not |
| Text.Trim | Sources/SilentKey/Services/UpdaterService.swift:192 | the trimmed text is a slice of the text with only whitespace cut away on either side; it is empty iff the text is all whitespace, and otherwise starts and ends with a non-whitespace character |
| Storage.IdsWithExtension | Sources/Core/Storage/FileStorage.swift:154-160 | an id is listed iff some file with the extension has a base name that parses as that UUID; so every canonical file is listed |
| Storage.ListingIgnores | Sources/Core/Storage/FileStorage.swift:155-160 | adding or removing a file with another extension or a non-UUID name leaves the listing unchanged |
| Storage.VaultMap | Sources/Core/Storage/FileStorage.swift:53-65 | an id is in the vault iff its `.vault` file exists, mapped to that file's contents |
| Storage.TrashMetadataOf | Sources/Core/Storage/FileStorage.swift:202-205 | the trash metadata is read iff `<id>.meta` exists and decodes, and it is what that file encodes |
| Storage.ReadMetadata | Sources/Core/Storage/FileStorage.swift:284-291 | nil iff there is no `metadata.json`; otherwise the decoded metadata, or a decoding failure |
| Storage.ExpiredIds | Sources/Core/Storage/FileStorage.swift:201-211 | exactly the listed trash ids whose metadata reads and whose expiry is strictly before now |
| Storage.Backup | Sources/Core/Storage/FileStorage.swift:233-253 | fails with `readFailed` when a listed id has no vault file, then with the metadata error, then with `metadataNotFound`; succeeds exactly otherwise, with a backup that decodes to the metadata and the whole vault |
| Storage.VaultMapUpdate | Sources/Core/Storage/FileStorage.swift:38-50 | writing `<id>.vault` updates the vault at id and nothing else |
| Storage.VaultMapRemove | Sources/Core/Storage/FileStorage.swift:68-95 | removing `<id>.vault` removes just id from the vault |
| Storage.VaultMapMetadata | Sources/Core/Storage/FileStorage.swift:277-281 | writing `metadata.json` leaves the vault unchanged |
| Storage.BackupContents | Sources/Core/Storage/FileStorage.swift:233-253 | a successful backup decodes to the stored metadata and the whole vault |
| Storage.SavedUuidKeyed | Sources/Core/Storage/FileStorage.swift:265-269 | saving every item of a map keyed by `uuidString` into a store without vault files reproduces the map |
| Storage.BackupRestoreRoundTrip | Sources/Core/Storage/FileStorage.swift:233-272 | restoring a backup into a store without vault files reproduces the source's vault and metadata |
| Storage.SaveStep | Sources/Core/Storage/FileStorage.swift:265-268 | saving one more parsable key's item extends the restored state by that key |
| Storage.SavedItemsMoreKeys | Sources/Core/Storage/FileStorage.swift:266 | a backup key that does not parse as a UUID is skipped and changes nothing |
| Storage.SavedKeepsMetadata | Sources/Core/Storage/FileStorage.swift:265-269 | the item loop of a restore never changes the metadata |
| Storage.RestoreComplete | Sources/Core/Storage/FileStorage.swift:256-272 | once every key is handled, the directory is a restore of the backup, with the backup's metadata |
| Storage.FileStorage.constructor | Sources/Core/Storage/FileStorage.swift:20-33 | the store starts over the given vault and trash directories |
| Storage.FileStorage.Save | Sources/Core/Storage/FileStorage.swift:38-50 | `<id>.vault` holds the data afterwards; loading id returns it; trash and metadata are unchanged |
| Storage.FileStorage.Load | Sources/Core/Storage/FileStorage.swift:53-65 | succeeds iff id is in the vault, with its contents; otherwise `readFailed` |
| Storage.FileStorage.MoveToTrash | Sources/Core/Storage/FileStorage.swift:68-95 | succeeds iff `<id>.vault` exists and `<id>.trash` does not; then the file moves to the trash with metadata expiring 30 days after now; on failure nothing changes |
| Storage.FileStorage.RestoreFromTrash | Sources/Core/Storage/FileStorage.swift:98-127 | back under id if that slot is free, else under the fresh id if free, else `restoreFailed`; the trash entry and its metadata go |
| Storage.FileStorage.PermanentDelete | Sources/Core/Storage/FileStorage.swift:130-145 | fails iff `<id>.trash` is absent; otherwise removes it and its metadata; the vault is untouched |
| Storage.FileStorage.ListAllIds | Sources/Core/Storage/FileStorage.swift:150-168 | an id is listed iff some `.vault` file's base name parses as it; every id in the vault is listed |
| Storage.FileStorage.ListTrashIds | Sources/Core/Storage/FileStorage.swift:171-189 | an id is listed iff some `.trash` file's base name parses as it; every id with a canonical `.trash` file is listed |
| Storage.FileStorage.CleanExpiredTrash | Sources/Core/Storage/FileStorage.swift:194-215 | succeeds iff every expired id has its trash file, and then removes exactly the expired entries; a failure leaves the removal of some expired entries |
| Storage.FileStorage.EmptyTrash | Sources/Core/Storage/FileStorage.swift:218-228 | on success the entries of every listed id are gone and no canonically named `.trash` file remains; the vault is untouched |
| Storage.FileStorage.CreateBackup | Sources/Core/Storage/FileStorage.swift:233-253 | succeeds iff every listed id loads and metadata exists; the backup then decodes to the whole vault |
| Storage.FileStorage.RestoreBackup | Sources/Core/Storage/FileStorage.swift:256-272 | an undecodable backup changes nothing; otherwise the metadata is overwritten and every parsable key's item is saved, other files kept |
| Storage.FileStorage.RestoreItem | Sources/Core/Storage/FileStorage.swift:265-269 | one loop step saves the key's item when the key parses and keeps the restore relation |
| Storage.FileStorage.SaveMetadata | Sources/Core/Storage/FileStorage.swift:277-281 | `metadata.json` holds the metadata afterwards and loads back as it; the vault is unchanged |
| Storage.FileStorage.LoadMetadata | Sources/Core/Storage/FileStorage.swift:284-291 | it is the reading of the vault directory's `metadata.json` |
| Vaults.ReadItem | Sources/Core/Storage/VaultManager.swift:99-113 | a missing id fails with `readFailed`; a success is an item whose encryption under the key is the stored ciphertext |
| Vaults.ReadableItems | Sources/Core/Storage/VaultManager.swift:156-176 | the listing has at most one item per visited id |
| Vaults.ReadableItemsExact | Sources/Core/Storage/VaultManager.swift:156-176 | every listed item is what some visited id reads as, and every readable visited id contributes its item |
| Vaults.ReadableItemsForeignKey | Sources/Core/Storage/VaultManager.swift:156-176 | when every file is sealed under another key, the listing is empty |
| Vaults.ReadableItemsSnoc | Sources/Core/Storage/VaultManager.swift:163-172 | visiting one more id appends its item exactly when it reads |
| Vaults.VaultManager.constructor | Sources/Core/Storage/VaultManager.swift:17-25 | a new manager is locked with no key |
| Vaults.VaultManager.Setup | Sources/Core/Storage/VaultManager.swift:30-46 | fresh metadata is written in any case; an empty password then fails with the lock state unchanged; otherwise the vault is unlocked with the derived key |
| Vaults.VaultManager.Unlock | Sources/Core/Storage/VaultManager.swift:49-65 | no metadata fails with `itemNotFound`, corrupt metadata with a decoding failure, an empty password with `invalidPassword`; otherwise unlocked with the key from the stored salt |
| Vaults.VaultManager.Lock | Sources/Core/Storage/VaultManager.swift:68-76 | locked with no key afterwards |
| Vaults.VaultManager.Read | Sources/Core/Storage/VaultManager.swift:99-113 | locked fails with `vaultLocked`; otherwise it reads the id under the master key |
| Vaults.VaultManager.Create | Sources/Core/Storage/VaultManager.swift:81-96 | locked fails and writes nothing; otherwise the sealed item is stored, reads back as itself, and other reads are unchanged |
| Vaults.VaultManager.Update | Sources/Core/Storage/VaultManager.swift:116-139 | the item is stored with `modifiedAt` stamped; metadata gets `lastModified` stamped if present; corrupt metadata fails after the save; the whole new vault directory is given for each case |
| Vaults.VaultManager.Delete | Sources/Core/Storage/VaultManager.swift:142-153 | locked fails; otherwise it is the move to trash, after which the item no longer reads |
| Vaults.VaultManager.List | Sources/Core/Storage/VaultManager.swift:156-176 | locked fails; otherwise every listed id is visited once and the result is the readable items in visit order |
| Vaults.VaultManager.CreateBackup | Sources/Core/Storage/VaultManager.swift:181-192 | locked fails with `vaultLocked`; otherwise it is the store's backup |
| Vaults.VaultManager.RestoreBackup | Sources/Core/Storage/VaultManager.swift:195-208 | succeeds iff the backup decodes and the password is non-empty, and then it is the store's restore; a failure changes nothing |
| Vaults.SetupCreateLockUnlockRead | Sources/Core/Storage/VaultManager.swift:30-113 | setup, create, lock, unlock with the same password, read gives the item back |
| Vaults.SetupCreateUnlockWrongPassword | Sources/Core/Storage/VaultManager.swift:49-65 | unlocking with another non-empty password succeeds, and the read then fails authentication |
| Vaults.DeleteThenRestore | Sources/Core/Storage/VaultManager.swift:142-153 | after delete the item does not read; after restoring it from the trash it reads back as itself |
| Updater.Components | Sources/SilentKey/Services/UpdaterService.swift:143-144 | a version has at most one numeric component per dot-separated piece |
| Updater.ComponentsFromPieces | Sources/SilentKey/Services/UpdaterService.swift:143-144 | every component is the 64-bit value of a non-empty, dot-free piece of the version |
| Updater.IsNewerVersion | Sources/SilentKey/Services/UpdaterService.swift:142-155 | the loop's answer is the version order on the numeric components |
| Updater.NewerIrreflexive | Sources/SilentKey/Services/UpdaterService.swift:146-154 | no version is newer than itself |
| Updater.NewerAsymmetric | Sources/SilentKey/Services/UpdaterService.swift:146-154 | of two versions at most one is newer than the other |
| Updater.NewerTransitive | Sources/SilentKey/Services/UpdaterService.swift:146-154 | the order is transitive |
| Updater.FirstDifferenceDecides | Sources/SilentKey/Services/UpdaterService.swift:146-152 | after an equal prefix, the first differing component decides |
| Updater.EqualPrefixLongerWins | Sources/SilentKey/Services/UpdaterService.swift:154 | when one component list is a prefix of the other, the longer one is newer |
| Updater.NonNumericDropped | Sources/SilentKey/Services/UpdaterService.swift:143-144 | "1.x.2" compares as [1, 2] |
| Updater.LongerIsNewer | Sources/SilentKey/Services/UpdaterService.swift:154 | "1.0.0" is newer than "1.0" and not the other way round |
| Updater.ParseUrl | Sources/SilentKey/Services/UpdaterService.swift:211 | a URL results iff the text is non-empty |
| Updater.Step | Sources/SilentKey/Services/UpdaterService.swift:183-214 | only non-blank text in a version or release-notes element with nothing found yet sets that field, trimmed; only the end of an enclosure changes the download URL; only an enclosure start changes the enclosure; start sets and end clears the current element |
| Updater.StepKeepsFound | Sources/SilentKey/Services/UpdaterService.swift:196-203 | no callback replaces a version or release-notes link already found |
| Updater.VersionFirstWins | Sources/SilentKey/Services/UpdaterService.swift:196-199 | once a version is found, no later callbacks change it |
| Updater.NotesFirstWins | Sources/SilentKey/Services/UpdaterService.swift:200-203 | once a release-notes link is found, no later callbacks change it |
| Updater.WhitespaceIgnored | Sources/SilentKey/Services/UpdaterService.swift:192-193 | whitespace-only text changes nothing |
| Updater.VersionTaken | Sources/SilentKey/Services/UpdaterService.swift:183-199 | the first non-blank text in a `sparkle:version` element becomes the version, trimmed |
| Updater.TextAfterEndIgnored | Sources/SilentKey/Services/UpdaterService.swift:213 | after any end tag, text is ignored |
| Updater.LastEnclosureWins | Sources/SilentKey/Services/UpdaterService.swift:186-187 | closing an enclosure with a `url` sets the download URL from it, whatever came before |
| Updater.RunAppend | Sources/SilentKey/Services/UpdaterService.swift:115-119 | parsing a document in two parts equals parsing it whole |
| Updater.AppcastParserDelegate.constructor | Sources/SilentKey/Services/UpdaterService.swift:175-181 | nothing found, no current element, no enclosure |
| Updater.AppcastParserDelegate.DidStartElement | Sources/SilentKey/Services/UpdaterService.swift:183-189 | the new state is one start-element step of the old |
| Updater.AppcastParserDelegate.FoundCharacters | Sources/SilentKey/Services/UpdaterService.swift:191-207 | the new state is one text step of the old |
| Updater.AppcastParserDelegate.DidEndElement | Sources/SilentKey/Services/UpdaterService.swift:209-214 | the new state is one end-element step of the old |
| Updater.AppcastParserDelegate.Deliver | Sources/SilentKey/Services/UpdaterService.swift:115-119 | delivering the callbacks in order runs the steps in order |
| Updater.UpdaterService.constructor | Sources/SilentKey/Services/UpdaterService.swift:91-95 | the current version is the bundle's, else "1.0.0"; no update yet |
| Updater.UpdaterService.ParseAppcast | Sources/SilentKey/Services/UpdaterService.swift:114-134 | the update fields are set iff parsing succeeded and found a version newer than the current one; otherwise nothing changes |
| Plugins.SupportedCategories | Sources/Core/Plugins/PluginSystem.swift:80-82 | banking validation supports exactly bank accounts and credit cards; export and backup support every category |
| Plugins.ExamplePlugins | Sources/Core/Plugins/PluginSystem.swift:75-164 | the three example plugins have distinct ids and version 1.0.0, so registering all three keeps all three |
| Plugins.AcceptedAction | Sources/Core/Plugins/PluginSystem.swift:88-174 | banking validation accepts `validate`, export `transform`, backup `backup`; no two share an action and none accepts `sync` or a custom action |
| Plugins.ValidateBankingSecret | Sources/Core/Plugins/PluginSystem.swift:96-116 | "Title is required" iff the title is empty; "Account name too short" iff a bank account has a title under 3 characters; success iff no issues |
| Plugins.EmptyBankAccountBothIssues | Sources/Core/Plugins/PluginSystem.swift:100-108 | a bank account with an empty title gets both issues, in that order |
| Plugins.OtherCategoriesCheckTitleOnly | Sources/Core/Plugins/PluginSystem.swift:99-108 | outside bank accounts, validation passes iff the title is non-empty |
| Plugins.PerformAction | Sources/Core/Plugins/PluginSystem.swift:84-192 | each plugin accepts its one action and fails every other with `actionNotSupported`; export fails for a non-exportable secret |
| Plugins.PluginManager.constructor | Sources/Core/Plugins/PluginSystem.swift:16 | the registry starts empty |
| Plugins.PluginManager.Register | Sources/Core/Plugins/PluginSystem.swift:22-26 | the plugin is stored under its id, replacing any earlier one, and shows for exactly its categories |
| Plugins.PluginManager.Unregister | Sources/Core/Plugins/PluginSystem.swift:29-33 | that id is gone; every other lookup is unchanged |
| Plugins.PluginManager.Lookup | Sources/Core/Plugins/PluginSystem.swift:55-57 | a lookup finds exactly the registered ids, each with a plugin of that id |
| Plugins.PluginManager.AllPlugins | Sources/Core/Plugins/PluginSystem.swift:36-40 | exactly the registered plugins |
| Plugins.PluginManager.PluginsFor | Sources/Core/Plugins/PluginSystem.swift:43-47 | exactly the registered plugins that list the category |
| Plugins.PluginManager.Execute | Sources/Core/Plugins/PluginSystem.swift:50-60 | an unregistered id fails with `pluginNotFound`; otherwise the plugin performs the action |
| Plugins.TemplateManager.constructor | Sources/Core/Plugins/PluginSystem.swift:202-210 | the two built-in templates are registered, the second winning a name clash |
| Plugins.TemplateManager.Register | Sources/Core/Plugins/PluginSystem.swift:213-215 | the template is stored under its name, replacing any earlier one, and is found by that name |
| Plugins.TemplateManager.AvailableTemplates | Sources/Core/Plugins/PluginSystem.swift:218-220 | exactly the registered templates |
| Plugins.TemplateManager.TemplateNamed | Sources/Core/Plugins/PluginSystem.swift:223-225 | found iff registered, and the found template has that name |
| PasswordGenerator.ClampLength | Sources/Features/PasswordGenerator/PasswordGenerator.swift:51 | the length lies in [8, 128]; an in-range length is kept; below becomes 8 and above becomes 128 |
| PasswordGenerator.NewConfiguration | Sources/Features/PasswordGenerator/PasswordGenerator.swift:42-58 | the length is clamped into [8, 128] and every flag is stored as passed |
| PasswordGenerator.RebuildIdentity | Sources/Features/PasswordGenerator/PasswordGenerator.swift:51-57 | re-initialising from an initialised configuration's fields gives it back |
| PasswordGenerator.ClampMonotone | Sources/Features/PasswordGenerator/PasswordGenerator.swift:51 | clamping keeps the order of requested lengths |
| PasswordGenerator.DefaultConfiguration | Sources/Features/PasswordGenerator/PasswordGenerator.swift:42-50 | defaults: length 16, all four classes, ambiguous characters allowed, minimum requirements on |
| PasswordGenerator.Strong | Sources/Features/PasswordGenerator/PasswordGenerator.swift:60-71 | length 20, all four classes, minimum requirements on |
| PasswordGenerator.Pin | Sources/Features/PasswordGenerator/PasswordGenerator.swift:73-84 | digits only, with length 8, not the 6 it asks for |

## Left out

- These are not modelled, and each call is one sequential step:
  - Swift concurrency (the `actor`s, `async`);
  - the `DispatchQueue` barrier of the plugin registry;
  - all `Logger` calls.
- Real cryptography is not modelled. `KeyDerivationService` and `AESEncryptionService` are not part of this model. Their stand-ins are an idealised collision-free key derivation and an authenticating cipher. Salt generation and `UUID()` are parameters.
- JSON is an exact symbolic codec. `encryptedData()` of an item is its encoding `Json(EncodedItem(item))`; it is not a separate member.
- `Date` is whole seconds given as `now`. Several `Date()` calls in one operation read the same instant.
- Filesystem failures other than a missing file or an existing move destination are not modelled: permissions, full disks and file protection never occur. The same goes for directory creation at initialisation, so `directoryCreationFailed` never occurs.
- The `errorDescription` texts of `StorageError` and `VaultError` are left out. They are display strings only.
- `VaultManager.createBackup(to:)` does not model its final file write, and `restoreBackup(from:)` does not model reading the file. Both work on the bytes.
- `read(id:as:)` and `list(type:)` are modelled for the one concrete item type, `SecretItem`. The generic `as:` parameter is not modelled.
- Storage.IdsWithExtension: a listing is a set of UUIDs. `contentsOfDirectory` gives an array of URLs, so two files whose base names are the same UUID in different letter case (`ab….vault` and `AB….vault`) give that id twice in the source and once in the model. File names are compared case-sensitively; the case-insensitive matching of a default macOS volume is not modelled.
- Storage.FileStorage.ListAllIds: returns a set, so a UUID named by two case variants is listed once, where the source lists it twice.
- Storage.FileStorage.ListTrashIds: returns a set, so a UUID named by two case variants is listed once, where the source lists it twice.
- Storage.FileStorage.Load: on a case-insensitive volume `<id>.vault` also opens a file named with the lower-case UUID. The model compares names exactly, so such a file does not load, and `Storage.FileStorage.CreateBackup` fails on it for the same reason, where the source would succeed.
- Storage.FileStorage.CleanExpiredTrash: on failure it states only that some subset of the expired entries was removed. The set depends on the unspecified listing order. An id listed twice through case-variant names is visited once in the model; the source visits it twice.
- Storage.FileStorage.EmptyTrash: on failure it states only the error, because which entries went first depends on the listing order. Orphaned `.meta` files and non-canonical names stay on success too. An id listed twice through case-variant names is deleted once in the model; in the source the second delete of that id throws, so the source can fail where the model succeeds.
- Storage.FileStorage.RestoreBackup: two backup keys that name the same UUID in different letter case compete. Dictionary order decides, so the contract says only that one of them is saved.
- Vaults.VaultManager.List: the directory order is a ghost output, so the contract fixes the result only relative to that order. An id listed twice through case-variant names is read once in the model, where the source returns its item twice.
- The updater's network fetch, `Timer`, `DispatchQueue`, `NSWorkspace`, download and user notification are left out. `XMLParser` itself is not modelled; the model is the sequence of callbacks it makes, and whether `parse()` succeeds is a parameter.
- Updater.ParseUrl: `URL(string:)` is approximated as accepting every non-empty string.
- Plugins.ValidateBankingSecret: Swift's `count` counts grapheme clusters, and the model counts characters (code points).
- Text.Split: Swift splits a `String` by `Character`, that is by grapheme cluster; the model splits by code point. A separator that combines with the next code point into one cluster is therefore a separator in the model only.
- Text.ParseInt: reads the text as code points, where Swift's `Int(_:)` reads its UTF-8 bytes. Only ASCII signs and digits are accepted either way, so the two agree on which texts parse.
- Text.Trim: trims whitespace code points; Swift trims grapheme clusters whose code points are all whitespace, which can differ when whitespace is followed by a combining mark.
- Plugins.PerformAction:
  - The export call of `ExportableSecret` is given as a flag and assumed to succeed. Its format and data are not modelled.
  - The backup plugin's `encryptedData()` and its timestamp are not modelled.
  - Third-party plugins with other `performAction` code are not part of this model. A registered plugin has one of the three example behaviours, under any id, name and categories.
- `TemplateManager.createSecret` is not modelled: it works over an untyped `[String: Any]`. The `fields` of templates are not modelled either.
- `BankAccountSecret` and `APIKeySecret` are not part of this model. The two templates that `init()` registers are therefore parameters.
- The `EncryptableSecret`, `ExportableSecret` and `ValidatableSecret` protocols are declarations only and are not modelled.
- The rest of `PasswordGenerator` is not modelled: the random generation itself is not visible.
