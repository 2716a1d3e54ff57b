/**
  The byte strings the core moves around, modelled symbolically.

  Real bytes come from two external layers: `JSONEncoder`/`JSONDecoder` and the
  AES cipher behind `AESEncryptionService`. Here a `Data` value records how it
  was made: `Json(v)` is the encoding of the Codable value `v`, `Sealed(k, p)` is
  the ciphertext of `p` under key `k`, and `Opaque(bytes)` is anything else (a
  file some other program wrote, a truncated blob). This makes the codec exactly
  invertible and the cipher fail on any other key, without axioms.

  The record types persisted by FileStorage are declared here because a backup
  is itself encoded into `Data` while holding `Data`.
 */
module Codec {
  import opened Wrappers
  import opened Uuids
  import opened Errors
  import opened Secrets

  /** A symmetric key, named by what it was derived from (an idealised, collision-free KDF). */
  datatype Key = DerivedKey(password: string, salt: Bytes)

  /** `VaultMetadata`: one per vault, in the vault directory's `metadata.json`. */
  datatype VaultMetadata = VaultMetadata(
    salt: Bytes,
    createdAt: Timestamp,
    lastModified: Timestamp,
    version: string)

  /** `VaultMetadata.init(salt:version:)`, with both dates taken from the clock reading `now`. */
  function NewVaultMetadata(salt: Bytes, now: Timestamp, version: string := "1.3.1"): (m: VaultMetadata)
    ensures m.salt == salt && m.version == version
    ensures m.createdAt == now && m.lastModified == now
  {
    VaultMetadata(salt, now, now, version)
  }

  /** `TrashMetadata`: one per trashed item, in `<id>.meta` beside `<id>.trash`. */
  datatype TrashMetadata = TrashMetadata(
    originalID: Uuid,
    deletedDate: Timestamp,
    expirationDate: Timestamp)

  /** `VaultBackup`: the vault metadata and every vault ciphertext, keyed by `uuidString`. */
  datatype VaultBackup = VaultBackup(metadata: VaultMetadata, items: map<string, Data>)

  /** A Codable value the core encodes. */
  datatype Encodable =
    | EncodedItem(item: SecretItem)
    | EncodedVaultMetadata(vaultMetadata: VaultMetadata)
    | EncodedTrashMetadata(trashMetadata: TrashMetadata)
    | EncodedBackup(backup: VaultBackup)

  datatype Data =
    | Opaque(bytes: Bytes)
    | Sealed(key: Key, plain: Data)
    | Json(value: Encodable)

  /** `JSONDecoder().decode(T.self, from: d)` for each of the four types. */
  function DecodeItem(d: Data): (r: Result<SecretItem, Error>)
    ensures r.Success? ==> d == Json(EncodedItem(r.value))
    ensures r.Failure? ==> r.error == DecodingFailure && !(d.Json? && d.value.EncodedItem?)
  {
    if d.Json? && d.value.EncodedItem? then Success(d.value.item) else Failure(DecodingFailure)
  }

  function DecodeVaultMetadata(d: Data): (r: Result<VaultMetadata, Error>)
    ensures r.Success? ==> d == Json(EncodedVaultMetadata(r.value))
    ensures r.Failure? ==> r.error == DecodingFailure && !(d.Json? && d.value.EncodedVaultMetadata?)
  {
    if d.Json? && d.value.EncodedVaultMetadata? then Success(d.value.vaultMetadata)
    else Failure(DecodingFailure)
  }

  function DecodeTrashMetadata(d: Data): (r: Result<TrashMetadata, Error>)
    ensures r.Success? ==> d == Json(EncodedTrashMetadata(r.value))
    ensures r.Failure? ==> r.error == DecodingFailure && !(d.Json? && d.value.EncodedTrashMetadata?)
  {
    if d.Json? && d.value.EncodedTrashMetadata? then Success(d.value.trashMetadata)
    else Failure(DecodingFailure)
  }

  function DecodeBackup(d: Data): (r: Result<VaultBackup, Error>)
    ensures r.Success? ==> d == Json(EncodedBackup(r.value))
    ensures r.Failure? ==> r.error == DecodingFailure && !(d.Json? && d.value.EncodedBackup?)
  {
    if d.Json? && d.value.EncodedBackup? then Success(d.value.backup) else Failure(DecodingFailure)
  }
}
