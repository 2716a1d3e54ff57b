/**
  `VaultManager`: the lock state and the master key, and the create/read/update/
  delete, listing and backup operations over the file store. It holds the key
  only while unlocked; every item it writes is sealed under that key.
 */
module Vaults {
  import opened Wrappers
  import opened Uuids
  import opened Errors
  import opened Secrets
  import opened Codec
  import opened Encryption
  import opened Storage

  /** What `read(id:as:)` yields for `id` from the vault directory `dir` under `key`. */
  function ReadItem(dir: Directory, key: Key, id: Uuid): (r: Result<SecretItem, Error>)
    ensures id !in VaultMap(dir) ==> r == Failure(Storage(ReadFailed(NoSuchFile)))
    ensures r.Success? ==> id in VaultMap(dir) && VaultMap(dir)[id] == Encrypt(r.value, key)
  {
    if id in VaultMap(dir) then Decrypt(VaultMap(dir)[id], key)
    else Failure(Storage(ReadFailed(NoSuchFile)))
  }

  /**
    The items `list(type:)` collects when it visits the ids in `order`: the
    readable ones, in order. `ReadableItemsExact` and `ReadableItemsSnoc` give
    its meaning.
   */
  function ReadableItems(dir: Directory, key: Key, order: seq<Uuid>): (items: seq<SecretItem>)
    ensures |items| <= |order|
  {
    if |order| == 0 then []
    else
      var rest := ReadableItems(dir, key, order[1..]);
      match ReadItem(dir, key, order[0])
      case Success(item) => [item] + rest
      case Failure(_) => rest
  }

  /**
    The listing is sound and complete: every listed item is what reading some
    visited id yields, and every visited id that reads successfully contributes
    its item.
   */
  lemma {:induction false} ReadableItemsExact(dir: Directory, key: Key, order: seq<Uuid>)
    ensures forall x :: x in ReadableItems(dir, key, order) ==>
      exists i :: 0 <= i < |order| && ReadItem(dir, key, order[i]) == Success(x)
    ensures forall i :: 0 <= i < |order| && ReadItem(dir, key, order[i]).Success? ==>
      ReadItem(dir, key, order[i]).value in ReadableItems(dir, key, order)
  {
    if |order| > 0 {
      ReadableItemsExact(dir, key, order[1..]);
      forall x | x in ReadableItems(dir, key, order)
        ensures exists i :: 0 <= i < |order| && ReadItem(dir, key, order[i]) == Success(x)
      {
        if ReadItem(dir, key, order[0]) == Success(x) {
          assert ReadItem(dir, key, order[0]) == Success(x);
        } else {
          var j :| 0 <= j < |order[1..]| && ReadItem(dir, key, order[1..][j]) == Success(x);
          assert order[1..][j] == order[j + 1];
        }
      }
      forall i | 0 <= i < |order| && ReadItem(dir, key, order[i]).Success?
        ensures ReadItem(dir, key, order[i]).value in ReadableItems(dir, key, order)
      {
        if i > 0 {
          assert order[1..][i - 1] == order[i];
        }
      }
    }
  }

  /** Items sealed under another key never appear: listing with the wrong key of every file gives nothing. */
  lemma {:induction false} ReadableItemsForeignKey(dir: Directory, key: Key, order: seq<Uuid>)
    requires forall id :: id in VaultMap(dir) ==> VaultMap(dir)[id].Sealed? && VaultMap(dir)[id].key != key
    ensures ReadableItems(dir, key, order) == []
  {
    if |order| > 0 {
      ReadableItemsForeignKey(dir, key, order[1..]);
    }
  }

  class VaultManager {
    const storage: FileStorage
    var isUnlocked: bool
    var masterKey: Option<Key>

    /** The manager holds a key exactly while it is unlocked. */
    predicate Valid()
      reads this
    {
      isUnlocked <==> masterKey.Some?
    }

    /** A locked manager over `storage`. */
    constructor (storage: FileStorage)
      ensures Valid() && !isUnlocked && masterKey == None
      ensures this.storage == storage
    {
      this.storage := storage;
      isUnlocked := false;
      masterKey := None;
    }

    /**
      `setup(masterPassword:)`: write fresh metadata, then derive the key. The
      metadata is written before an empty password is refused, and it replaces
      any existing vault's salt. `salt` is `generateSalt()`, `now` is `Date()`.
     */
    method Setup(password: string, salt: Bytes, now: Timestamp) returns (r: Outcome<Error>)
      requires Valid()
      modifies this, storage
      ensures Valid()
      ensures storage.vaultDir == old(storage.vaultDir)[MetadataFile := Json(EncodedVaultMetadata(NewVaultMetadata(salt, now)))]
      ensures storage.trashDir == old(storage.trashDir)
      ensures storage.LoadMetadata() == Success(Some(NewVaultMetadata(salt, now)))
      ensures password == "" ==> r == Fail(InvalidPassword) && isUnlocked == old(isUnlocked) && masterKey == old(masterKey)
      ensures password != "" ==> r == Pass && isUnlocked && masterKey == Some(DeriveMasterKey(password, salt))
    {
      var metadata := NewVaultMetadata(salt, now);
      storage.SaveMetadata(metadata);
      var derived := DeriveKey(password, salt);
      if derived.Failure? {
        return Fail(derived.error);
      }
      masterKey := Some(derived.value);
      isUnlocked := true;
      r := Pass;
    }

    /**
      `unlock(masterPassword:)`: derive the key from the stored salt. No metadata
      is `itemNotFound`. Any non-empty password unlocks; a wrong one only shows
      when an item fails to decrypt.
     */
    method Unlock(password: string) returns (r: Outcome<Error>)
      requires Valid()
      modifies this
      ensures Valid()
      ensures storage.LoadMetadata().Failure? ==> r == Fail(DecodingFailure)
      ensures storage.LoadMetadata() == Success(None) ==> r == Fail(Vault(ItemNotFound))
      ensures storage.LoadMetadata().Success? && storage.LoadMetadata().value.Some? && password == "" ==>
        r == Fail(InvalidPassword)
      ensures r.Fail? ==> isUnlocked == old(isUnlocked) && masterKey == old(masterKey)
      ensures r.Pass? <==> storage.LoadMetadata().Success? && storage.LoadMetadata().value.Some? && password != ""
      ensures r.Pass? ==> (isUnlocked &&
        masterKey == Some(DeriveMasterKey(password, storage.LoadMetadata().value.value.salt)))
    {
      var loaded := storage.LoadMetadata();
      if loaded.Failure? {
        return Fail(loaded.error);
      }
      if loaded.value.None? {
        return Fail(Vault(ItemNotFound));
      }
      var derived := DeriveKey(password, loaded.value.value.salt);
      if derived.Failure? {
        return Fail(derived.error);
      }
      masterKey := Some(derived.value);
      isUnlocked := true;
      r := Pass;
    }

    /** `lock()`: forget the key. */
    method Lock()
      modifies this
      ensures Valid() && !isUnlocked && masterKey == None
    {
      masterKey := None;
      isUnlocked := false;
    }

    /** `read(id:as:)`. */
    function Read(id: Uuid): (r: Result<SecretItem, Error>)
      reads this, storage
      ensures !isUnlocked || masterKey.None? ==> r == Failure(Vault(VaultLocked))
      ensures isUnlocked && masterKey.Some? ==> r == ReadItem(storage.vaultDir, masterKey.value, id)
    {
      if !isUnlocked || masterKey.None? then Failure(Vault(VaultLocked))
      else
        var data :- storage.Load(id);
        Decrypt(data, masterKey.value)
    }

    /** `create(_:)`: seal the item under the master key and write it under its own id. */
    method Create(item: SecretItem) returns (r: Result<SecretItem, Error>)
      requires Valid()
      modifies storage
      ensures !isUnlocked ==> r == Failure(Vault(VaultLocked)) && storage.vaultDir == old(storage.vaultDir)
      ensures isUnlocked ==> (r == Success(item) &&
        storage.vaultDir == old(storage.vaultDir)[VaultFile(item.id) := Encrypt(item, masterKey.value)])
      ensures isUnlocked ==> Read(item.id) == Success(item)
      ensures forall id :: id != item.id ==> Read(id) == old(Read(id))
      ensures storage.trashDir == old(storage.trashDir)
    {
      if !isUnlocked || masterKey.None? {
        return Failure(Vault(VaultLocked));
      }
      var key := masterKey.value;
      var encrypted := Encrypt(item, key);
      DecryptEncrypt(item, key);
      storage.Save(encrypted, item.id);
      r := Success(item);
    }

    /**
      `update(_:)`: stamp `modifiedAt`, save, then stamp the metadata's
      `lastModified` when metadata exists. A corrupt metadata file fails the call
      after the item was saved.
     */
    method Update(item: SecretItem, now: Timestamp) returns (r: Result<SecretItem, Error>)
      requires Valid()
      modifies storage
      ensures !isUnlocked ==> r == Failure(Vault(VaultLocked)) && storage.vaultDir == old(storage.vaultDir)
      ensures isUnlocked ==> Read(item.id) == Success(item.(modifiedAt := now))
      ensures isUnlocked ==> storage.Vault() == old(storage.Vault())[item.id := Encrypt(item.(modifiedAt := now), masterKey.value)]
      ensures isUnlocked ==> match old(storage.LoadMetadata())
        case Failure(e) => r == Failure(e) && storage.LoadMetadata() == old(storage.LoadMetadata())
        case Success(None) => r == Success(item.(modifiedAt := now)) && storage.LoadMetadata() == Success(None)
        case Success(Some(m)) => (r == Success(item.(modifiedAt := now)) &&
          storage.LoadMetadata() == Success(Some(m.(lastModified := now))))
      ensures isUnlocked ==> match old(storage.LoadMetadata())
        case Success(Some(m)) => storage.vaultDir == old(storage.vaultDir)
          [VaultFile(item.id) := Encrypt(item.(modifiedAt := now), masterKey.value)]
          [MetadataFile := Json(EncodedVaultMetadata(m.(lastModified := now)))]
        case _ => storage.vaultDir == old(storage.vaultDir)
          [VaultFile(item.id) := Encrypt(item.(modifiedAt := now), masterKey.value)]
      ensures storage.trashDir == old(storage.trashDir)
    {
      if !isUnlocked || masterKey.None? {
        return Failure(Vault(VaultLocked));
      }
      var key := masterKey.value;
      var updated := item.(modifiedAt := now);
      DecryptEncrypt(updated, key);
      storage.Save(Encrypt(updated, key), updated.id);
      var loaded := storage.LoadMetadata();
      if loaded.Failure? {
        return Failure(loaded.error);
      }
      if loaded.value.Some? {
        var metadata := loaded.value.value.(lastModified := now);
        storage.SaveMetadata(metadata);
      }
      r := Success(updated);
    }

    /** `delete(id:)`: a soft delete into the trash; only `isUnlocked` is checked. */
    method Delete(id: Uuid, now: Timestamp) returns (r: Outcome<Error>)
      requires Valid()
      modifies storage
      ensures !isUnlocked ==> (r == Fail(Vault(VaultLocked)) &&
        storage.vaultDir == old(storage.vaultDir) && storage.trashDir == old(storage.trashDir))
      ensures isUnlocked ==> (r.Pass? <==> id in old(storage.Vault()) && TrashFile(id) !in old(storage.trashDir))
      ensures r.Fail? ==> storage.vaultDir == old(storage.vaultDir) && storage.trashDir == old(storage.trashDir)
      ensures r.Pass? ==> storage.vaultDir == old(storage.vaultDir) - {VaultFile(id)}
      ensures r.Pass? ==> storage.trashDir == old(storage.trashDir)[TrashFile(id) := old(storage.vaultDir)[VaultFile(id)]]
        [MetaFile(id) := Json(EncodedTrashMetadata(TrashMetadata(id, now, now + TrashRetention)))]
      ensures r.Pass? ==> storage.Vault() == old(storage.Vault()) - {id} && Read(id).Failure?
    {
      if !isUnlocked {
        return Fail(Vault(VaultLocked));
      }
      r := storage.MoveToTrash(id, now);
    }

    /**
      `list(type:)`: read every listed id, skipping those that fail to load or to
      decrypt. Directory order is unspecified; `order` is the visit order.
     */
    method List() returns (r: Result<seq<SecretItem>, Error>, ghost order: seq<Uuid>)
      requires Valid()
      ensures !isUnlocked ==> r == Failure(Vault(VaultLocked))
      ensures isUnlocked ==> r.Success?
      ensures isUnlocked ==> (forall id :: id in order <==> id in storage.ListAllIds())
      ensures isUnlocked ==> |order| == |storage.ListAllIds()|
      ensures r.Success? ==> r.value == ReadableItems(storage.vaultDir, masterKey.value, order)
    {
      order := [];
      if !isUnlocked || masterKey.None? {
        return Failure(Vault(VaultLocked)), order;
      }
      var ids := storage.ListAllIds();
      var items: seq<SecretItem> := [];
      var todo := ids;
      while todo != {}
        invariant todo <= ids
        invariant forall id :: id in order <==> id in ids - todo
        invariant |order| + |todo| == |ids|
        invariant ReadableItems(storage.vaultDir, masterKey.value, order) == items
        decreases todo
      {
        var id :| id in todo;
        ReadableItemsSnoc(storage.vaultDir, masterKey.value, order, id);
        var read := Read(id);
        if read.Success? {
          items := items + [read.value];
        }
        order := order + [id];
        todo := todo - {id};
      }
      r := Success(items);
    }

    /** `createBackup(to:)` without the final write: the backup bytes. Only `isUnlocked` is checked. */
    method CreateBackup() returns (r: Result<Data, Error>)
      requires Valid()
      ensures !isUnlocked ==> r == Failure(Vault(VaultLocked))
      ensures isUnlocked ==> r == Backup(storage.vaultDir)
    {
      if !isUnlocked {
        return Failure(Vault(VaultLocked));
      }
      r := storage.CreateBackup();
    }

    /**
      `restoreBackup(from:masterPassword:)`, given the file's bytes. The password
      is only run through key derivation with the backup's salt, so any non-empty
      password is accepted; the lock state does not change.
     */
    method RestoreBackup(backupData: Data, password: string) returns (r: Outcome<Error>)
      modifies storage
      ensures DecodeBackup(backupData).Failure? ==> r == Fail(DecodingFailure)
      ensures DecodeBackup(backupData).Success? && password == "" ==> r == Fail(InvalidPassword)
      ensures r.Fail? ==> storage.vaultDir == old(storage.vaultDir)
      ensures r.Pass? <==> DecodeBackup(backupData).Success? && password != ""
      ensures r.Pass? ==> RestoredFrom(old(storage.vaultDir), storage.vaultDir, DecodeBackup(backupData).value)
      ensures storage.trashDir == old(storage.trashDir)
    {
      var decoded := DecodeBackup(backupData);
      if decoded.Failure? {
        return Fail(decoded.error);
      }
      var derived := DeriveKey(password, decoded.value.metadata.salt);
      if derived.Failure? {
        return Fail(derived.error);
      }
      r := storage.RestoreBackup(backupData);
    }
  }

  /** Visiting one more id appends its item exactly when it reads successfully. */
  lemma {:induction false} ReadableItemsSnoc(dir: Directory, key: Key, order: seq<Uuid>, id: Uuid)
    ensures ReadableItems(dir, key, order + [id]) ==
      ReadableItems(dir, key, order) + (if ReadItem(dir, key, id).Success? then [ReadItem(dir, key, id).value] else [])
    decreases |order|
  {
    if |order| == 0 {
      assert order + [id] == [id];
      assert [id][1..] == [];
    } else {
      assert (order + [id])[1..] == order[1..] + [id];
      ReadableItemsSnoc(dir, key, order[1..], id);
    }
  }

  /**
    The round trip through the manager: after setting up an empty vault, creating
    an item, locking and unlocking with the same password, reading the item
    gives it back.
   */
  method SetupCreateLockUnlockRead(item: SecretItem, password: string, salt: Bytes, now: Timestamp)
    returns (r: Result<SecretItem, Error>)
    requires password != ""
    ensures r == Success(item)
  {
    var store := new FileStorage(map[], map[]);
    var vault := new VaultManager(store);
    var _ := vault.Setup(password, salt, now);
    var _ := vault.Create(item);
    vault.Lock();
    var unlocked := vault.Unlock(password);
    assert unlocked.Pass?;
    r := vault.Read(item.id);
  }

  /**
    The same round trip with a different non-empty password at unlock: the
    unlock succeeds and the read fails to authenticate.
   */
  method SetupCreateUnlockWrongPassword(item: SecretItem, password: string, attempt: string, salt: Bytes, now: Timestamp)
    returns (unlocked: Outcome<Error>, r: Result<SecretItem, Error>)
    requires password != "" && attempt != "" && attempt != password
    ensures unlocked == Pass
    ensures r == Failure(CipherFailure)
  {
    var store := new FileStorage(map[], map[]);
    var vault := new VaultManager(store);
    var _ := vault.Setup(password, salt, now);
    var _ := vault.Create(item);
    vault.Lock();
    unlocked := vault.Unlock(attempt);
    r := vault.Read(item.id);
  }

  /**
    On a vault holding one sealed item: after unlocking, deleting the item makes
    it unreadable, and restoring it from the trash into its free slot brings it back.
   */
  method DeleteThenRestore(item: SecretItem, password: string, salt: Bytes, now: Timestamp, freshId: Uuid)
    returns (afterDelete: Result<SecretItem, Error>, afterRestore: Result<SecretItem, Error>)
    requires password != ""
    ensures afterDelete == Failure(Storage(ReadFailed(NoSuchFile)))
    ensures afterRestore == Success(item)
  {
    var sealed := Encrypt(item, DeriveMasterKey(password, salt));
    var store := new FileStorage(
      map[MetadataFile := Json(EncodedVaultMetadata(NewVaultMetadata(salt, now))), VaultFile(item.id) := sealed],
      map[]);
    var vault := new VaultManager(store);
    var unlocked := vault.Unlock(password);
    assert unlocked.Pass?;
    var deleted := vault.Delete(item.id, now);
    assert deleted.Pass?;
    assert VaultFile(item.id) !in store.vaultDir && store.trashDir[TrashFile(item.id)] == sealed;
    afterDelete := vault.Read(item.id);
    var restored := store.RestoreFromTrash(item.id, None, freshId);
    assert store.vaultDir[VaultFile(item.id)] == sealed;
    DecryptEncrypt(item, DeriveMasterKey(password, salt));
    afterRestore := vault.Read(item.id);
  }
}
