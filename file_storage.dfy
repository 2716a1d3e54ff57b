/**
  `FileStorage`: the vault directory (`<id>.vault` ciphertexts and
  `metadata.json`) and the trash directory (`<id>.trash` ciphertexts, each with
  an `<id>.meta` TrashMetadata record).

  A directory is a map from file names to contents. A file name is already split
  the way `pathExtension` and `deletingPathExtension()` split it, so "metadata.json"
  is FileName("metadata", "json"). Names are case-sensitive, and the files the
  store itself writes are always named by the canonical `uuidString`.
 */
module Storage {
  import opened Wrappers
  import opened Uuids
  import opened Errors
  import opened Secrets
  import opened Codec

  datatype FileName = FileName(base: string, ext: string)

  type Directory = map<FileName, Data>

  function VaultFile(id: Uuid): FileName { FileName(id, "vault") }
  function TrashFile(id: Uuid): FileName { FileName(id, "trash") }
  function MetaFile(id: Uuid): FileName { FileName(id, "meta") }
  const MetadataFile: FileName := FileName("metadata", "json")

  /** Trash entries expire 30 days after deletion. */
  const TrashRetention: int := 30 * 24 * 60 * 60

  lemma AllCanonicalParse()
    ensures forall u: Uuid :: ParseUuid(u) == Some(u)
  {
    forall u: Uuid ensures ParseUuid(u) == Some(u) {
      ParseCanonical(u);
    }
  }

  /**
    The listing step of `listAllIDs`/`listTrashIDs`: the directory's entries,
    filtered by extension, whose base name parses as a UUID. Order is not modelled.
   */
  function IdsWithExtension(dir: Directory, ext: string): (ids: set<Uuid>)
    ensures forall id: Uuid :: FileName(id, ext) in dir ==> id in ids
    ensures forall id :: id in ids <==> exists f :: f in dir && f.ext == ext && ParseUuid(f.base) == Some(id)
  {
    AllCanonicalParse();
    set f | f in dir && f.ext == ext && ParseUuid(f.base).Some? :: ParseUuid(f.base).value
  }

  /** A file with another extension, or whose base name is not UUID text, never shows in a listing. */
  lemma {:induction false} ListingIgnores(dir: Directory, f: FileName, d: Data, ext: string)
    requires f.ext != ext || !IsUuidText(f.base)
    ensures IdsWithExtension(dir[f := d], ext) == IdsWithExtension(dir, ext)
    ensures IdsWithExtension(dir - {f}, ext) == IdsWithExtension(dir, ext)
  {
    var a, b, c := IdsWithExtension(dir[f := d], ext), IdsWithExtension(dir, ext), IdsWithExtension(dir - {f}, ext);
    forall id | id in a ensures id in b {
      var g :| g in dir[f := d] && g.ext == ext && ParseUuid(g.base) == Some(id);
      assert g != f;
    }
    forall id | id in b ensures id in a && id in c {
      var g :| g in dir && g.ext == ext && ParseUuid(g.base) == Some(id);
      assert g != f;
      assert g in dir[f := d] && g in dir - {f};
    }
  }

  /** The vault as the rest of the system sees it: id -> ciphertext of its `<id>.vault` file. */
  function VaultMap(dir: Directory): (m: map<Uuid, Data>)
    ensures forall id: Uuid :: id in m <==> VaultFile(id) in dir
    ensures forall id: Uuid :: id in m ==> m[id] == dir[VaultFile(id)]
  {
    map id | id in IdsWithExtension(dir, "vault") && VaultFile(id) in dir :: dir[VaultFile(id)]
  }

  /** `loadMetadata()`: nil when `metadata.json` is absent, a decoding error when it is corrupt. */
  function ReadMetadata(dir: Directory): (r: Result<Option<VaultMetadata>, Error>)
    ensures r == Success(None) <==> MetadataFile !in dir
    ensures r.Success? && r.value.Some? ==> dir[MetadataFile] == Json(EncodedVaultMetadata(r.value.value))
    ensures r.Failure? ==> r.error == DecodingFailure
  {
    if MetadataFile !in dir then Success(None)
    else
      var m :- DecodeVaultMetadata(dir[MetadataFile]);
      Success(Some(m))
  }

  /** The trash metadata of `id`, or nil when `<id>.meta` is missing or does not decode (`try?`). */
  function TrashMetadataOf(trash: Directory, id: Uuid): (r: Option<TrashMetadata>)
    ensures r.Some? <==> MetaFile(id) in trash && DecodeTrashMetadata(trash[MetaFile(id)]).Success?
    ensures r.Some? ==> trash[MetaFile(id)] == Json(EncodedTrashMetadata(r.value))
  {
    if MetaFile(id) in trash then DecodeTrashMetadata(trash[MetaFile(id)]).ToOption() else None
  }

  /** The trash ids `cleanExpiredTrash` deletes at time `now`: readable metadata, expiry strictly before `now`. */
  function ExpiredIds(trash: Directory, now: Timestamp): (ids: set<Uuid>)
    ensures ids <= IdsWithExtension(trash, "trash")
    ensures forall id :: id in ids ==> TrashMetadataOf(trash, id).Some? && TrashMetadataOf(trash, id).value.expirationDate < now
    ensures forall id :: (id in IdsWithExtension(trash, "trash") && TrashMetadataOf(trash, id).Some? &&
      TrashMetadataOf(trash, id).value.expirationDate < now) ==> id in ids
  {
    set id | id in IdsWithExtension(trash, "trash") && TrashMetadataOf(trash, id).Some? &&
      TrashMetadataOf(trash, id).value.expirationDate < now
  }

  /** The `.trash` and `.meta` files of the given ids. */
  function TrashEntries(ids: set<Uuid>): (fs: set<FileName>)
    ensures forall id: Uuid :: TrashFile(id) in fs <==> id in ids
    ensures forall id: Uuid :: MetaFile(id) in fs <==> id in ids
    ensures forall f :: f in fs ==> f.ext == "trash" || f.ext == "meta"
  {
    (set id | id in ids :: TrashFile(id)) + (set id | id in ids :: MetaFile(id))
  }

  /** Every id the vault listing returns has its canonical `<id>.vault` file. */
  predicate AllListedLoadable(dir: Directory) {
    forall id :: id in IdsWithExtension(dir, "vault") ==> VaultFile(id) in dir
  }

  /** What `createBackup()` returns for the vault directory `dir`. */
  function Backup(dir: Directory): (r: Result<Data, Error>)
    ensures !AllListedLoadable(dir) ==> r == Failure(Storage(ReadFailed(NoSuchFile)))
    ensures AllListedLoadable(dir) && ReadMetadata(dir).Failure? ==> r == Failure(ReadMetadata(dir).error)
    ensures AllListedLoadable(dir) && ReadMetadata(dir) == Success(None) ==>
      r == Failure(Storage(ReadFailed(MetadataNotFound)))
    ensures r.Success? <==> AllListedLoadable(dir) && ReadMetadata(dir).Success? && ReadMetadata(dir).value.Some?
    ensures r.Success? ==> DecodeBackup(r.value) == Success(VaultBackup(ReadMetadata(dir).value.value, VaultMap(dir)))
  {
    if !AllListedLoadable(dir) then Failure(Storage(ReadFailed(NoSuchFile)))
    else
      var meta :- ReadMetadata(dir);
      if meta.None? then Failure(Storage(ReadFailed(MetadataNotFound)))
      else Success(Json(EncodedBackup(VaultBackup(meta.value, VaultMap(dir)))))
  }

  /** The ids a restore writes when it has handled the backup keys in `keys`. */
  function RestoredIds(items: map<string, Data>, keys: set<string>): set<Uuid> {
    set k | k in keys && k in items && ParseUuid(k).Some? :: ParseUuid(k).value
  }

  function RestoredFiles(items: map<string, Data>, keys: set<string>): set<FileName> {
    set id | id in RestoredIds(items, keys) :: VaultFile(id)
  }

  /** `d` is the item of some handled key that names `id`. */
  ghost predicate IsRestoredValue(items: map<string, Data>, keys: set<string>, id: Uuid, d: Data) {
    exists k :: k in keys && k in items && ParseUuid(k) == Some(id) && items[k] == d
  }

  /**
    `after` is `base` with the items of the handled keys saved. Two keys that name
    the same UUID (differing only in letter case) compete; dictionary order
    decides, so only "one of them" is stated.
   */
  ghost predicate SavedItems(base: Directory, after: Directory, items: map<string, Data>, keys: set<string>) {
    && (forall f :: f in after <==> f in base || f in RestoredFiles(items, keys))
    && (forall f :: f in base && f !in RestoredFiles(items, keys) ==> after[f] == base[f])
    && (forall id :: id in RestoredIds(items, keys) ==>
          VaultFile(id) in after && IsRestoredValue(items, keys, id, after[VaultFile(id)]))
  }

  /** The possible vault directories after `restoreBackup` of `b` into `before`. */
  ghost predicate RestoredFrom(before: Directory, after: Directory, b: VaultBackup) {
    SavedItems(before[MetadataFile := Json(EncodedVaultMetadata(b.metadata))], after, b.items, b.items.Keys)
  }

  lemma VaultMapUpdate(dir: Directory, id: Uuid, d: Data)
    ensures VaultMap(dir[VaultFile(id) := d]) == VaultMap(dir)[id := d]
  {
  }

  lemma VaultMapRemove(dir: Directory, id: Uuid)
    ensures VaultMap(dir - {VaultFile(id)}) == VaultMap(dir) - {id}
  {
  }

  lemma VaultMapMetadata(dir: Directory, d: Data)
    ensures VaultMap(dir[MetadataFile := d]) == VaultMap(dir)
  {
  }

  /** What a successful backup decodes to: the metadata that was read and the vault map. */
  lemma BackupContents(dir: Directory, data: Data)
    requires Backup(dir) == Success(data)
    ensures DecodeBackup(data).Success?
    ensures DecodeBackup(data).value.items == VaultMap(dir)
    ensures ReadMetadata(dir) == Success(Some(DecodeBackup(data).value.metadata))
  {
  }

  /** Saving every item of a map keyed by canonical UUIDs over a base with no vault files yields that map. */
  lemma {:induction false} SavedUuidKeyed(base: Directory, after: Directory, items: map<Uuid, Data>)
    requires VaultMap(base) == map[]
    requires SavedItems(base, after, items, items.Keys)
    ensures VaultMap(after) == items
  {
    AllCanonicalParse();
    forall id: Uuid | id in items
      ensures VaultFile(id) in after && after[VaultFile(id)] == items[id]
    {
      assert id in RestoredIds(items, items.Keys);
      var k :| k in items && ParseUuid(k) == Some(id) && items[k] == after[VaultFile(id)];
      assert ParseUuid(k) == Some(k);
    }
    forall id: Uuid | id !in items
      ensures VaultFile(id) !in after
    {
      assert VaultFile(id) !in base;
      assert id !in RestoredIds(items, items.Keys);
      assert VaultFile(id) !in RestoredFiles(items, items.Keys);
    }
  }

  /**
    Backup fidelity: restoring what `createBackup` produced into a directory with
    no vault files reproduces the vault map and the metadata exactly.
   */
  lemma {:induction false} BackupRestoreRoundTrip(source: Directory, data: Data, before: Directory, after: Directory)
    requires Backup(source) == Success(data)
    requires VaultMap(before) == map[]
    requires RestoredFrom(before, after, DecodeBackup(data).value)
    ensures VaultMap(after) == VaultMap(source)
    ensures ReadMetadata(after) == ReadMetadata(source)
  {
    BackupContents(source, data);
    var b := DecodeBackup(data).value;
    var base := before[MetadataFile := Json(EncodedVaultMetadata(b.metadata))];
    VaultMapMetadata(before, Json(EncodedVaultMetadata(b.metadata)));
    SavedUuidKeyed(base, after, VaultMap(source));
    assert MetadataFile !in RestoredFiles(b.items, b.items.Keys);
    assert after[MetadataFile] == base[MetadataFile];
  }

  class FileStorage {
    /** The vault directory's entries. */
    var vaultDir: Directory
    /** The trash directory's entries. */
    var trashDir: Directory

    /** The store over directories that already hold `vaultDir` and `trashDir`. */
    constructor (vaultDir: Directory, trashDir: Directory)
      ensures this.vaultDir == vaultDir && this.trashDir == trashDir
    {
      this.vaultDir := vaultDir;
      this.trashDir := trashDir;
    }

    /** The active vault: id -> ciphertext. */
    function Vault(): map<Uuid, Data>
      reads this
    {
      VaultMap(vaultDir)
    }

    /** `save(_:forID:)`: an atomic replace of `<id>.vault`. */
    method Save(data: Data, id: Uuid)
      modifies this
      ensures vaultDir == old(vaultDir)[VaultFile(id) := data]
      ensures trashDir == old(trashDir)
      ensures Vault() == old(Vault())[id := data]
      ensures Load(id) == Success(data)
      ensures LoadMetadata() == old(LoadMetadata())
    {
      VaultMapUpdate(vaultDir, id, data);
      vaultDir := vaultDir[VaultFile(id) := data];
    }

    /** `load(forID:)`. */
    function Load(id: Uuid): (r: Result<Data, Error>)
      reads this
      ensures r.Success? <==> id in Vault()
      ensures r.Success? ==> r.value == Vault()[id]
      ensures r.Failure? ==> r.error == Storage(ReadFailed(NoSuchFile))
    {
      if VaultFile(id) in vaultDir then Success(vaultDir[VaultFile(id)])
      else Failure(Storage(ReadFailed(NoSuchFile)))
    }

    /**
      `moveToTrash(forID:)`: move `<id>.vault` to `<id>.trash`, then write `<id>.meta`
      with a 30-day expiry. `moveItem` refuses a missing source and an existing
      destination; either way nothing changes.
     */
    method MoveToTrash(id: Uuid, now: Timestamp) returns (r: Outcome<Error>)
      modifies this
      ensures VaultFile(id) !in old(vaultDir) ==> r == Fail(Storage(DeleteFailed(NoSuchFile)))
      ensures VaultFile(id) in old(vaultDir) && TrashFile(id) in old(trashDir) ==>
        r == Fail(Storage(DeleteFailed(FileExists)))
      ensures r.Fail? ==> vaultDir == old(vaultDir) && trashDir == old(trashDir)
      ensures r.Pass? ==> vaultDir == old(vaultDir) - {VaultFile(id)}
      ensures r.Pass? ==> trashDir == old(trashDir)[TrashFile(id) := old(vaultDir)[VaultFile(id)]]
        [MetaFile(id) := Json(EncodedTrashMetadata(TrashMetadata(id, now, now + TrashRetention)))]
      ensures r.Pass? ==> Vault() == old(Vault()) - {id} && id in ListTrashIds()
      ensures r.Pass? ==> TrashMetadataOf(trashDir, id) == Some(TrashMetadata(id, now, now + TrashRetention))
      ensures r.Pass? <==> VaultFile(id) in old(vaultDir) && TrashFile(id) !in old(trashDir)
    {
      var trashMetadata := TrashMetadata(id, now, now + TrashRetention);
      if VaultFile(id) !in vaultDir {
        return Fail(Storage(DeleteFailed(NoSuchFile)));
      }
      if TrashFile(id) in trashDir {
        return Fail(Storage(DeleteFailed(FileExists)));
      }
      var data := vaultDir[VaultFile(id)];
      VaultMapRemove(vaultDir, id);
      vaultDir := vaultDir - {VaultFile(id)};
      trashDir := trashDir[TrashFile(id) := data];
      trashDir := trashDir[MetaFile(id) := Json(EncodedTrashMetadata(trashMetadata))];
      r := Pass;
    }

    /**
      `restoreFromTrash(id:newName:)`: back under `id` when that slot is free, else
      under `freshId` (the `UUID()` the source mints); `newName` is unused and the
      chosen id is not reported. Removing `<id>.meta` is best-effort.
     */
    method RestoreFromTrash(id: Uuid, newName: Option<string>, freshId: Uuid) returns (r: Outcome<Error>)
      modifies this
      ensures TrashFile(id) !in old(trashDir) ==> r == Fail(Storage(RestoreFailed(NoSuchFile)))
      ensures TrashFile(id) in old(trashDir) && VaultFile(id) in old(vaultDir) && VaultFile(freshId) in old(vaultDir) ==>
        r == Fail(Storage(RestoreFailed(FileExists)))
      ensures r.Fail? ==> vaultDir == old(vaultDir) && trashDir == old(trashDir)
      ensures r.Pass? ==> TrashFile(id) in old(trashDir)
      ensures r.Pass? && VaultFile(id) !in old(vaultDir) ==>
        vaultDir == old(vaultDir)[VaultFile(id) := old(trashDir)[TrashFile(id)]] &&
        Vault() == old(Vault())[id := old(trashDir)[TrashFile(id)]]
      ensures r.Pass? && VaultFile(id) in old(vaultDir) ==>
        VaultFile(freshId) !in old(vaultDir) &&
        vaultDir == old(vaultDir)[VaultFile(freshId) := old(trashDir)[TrashFile(id)]] &&
        Vault() == old(Vault())[freshId := old(trashDir)[TrashFile(id)]]
      ensures r.Pass? ==> trashDir == old(trashDir) - {TrashFile(id), MetaFile(id)}
      ensures r.Pass? <==> (TrashFile(id) in old(trashDir) &&
        (VaultFile(id) !in old(vaultDir) || VaultFile(freshId) !in old(vaultDir)))
    {
      var finalId := id;
      if VaultFile(id) in vaultDir {
        finalId := freshId;
      }
      if TrashFile(id) !in trashDir {
        return Fail(Storage(RestoreFailed(NoSuchFile)));
      }
      if VaultFile(finalId) in vaultDir {
        return Fail(Storage(RestoreFailed(FileExists)));
      }
      var data := trashDir[TrashFile(id)];
      VaultMapUpdate(vaultDir, finalId, data);
      vaultDir := vaultDir[VaultFile(finalId) := data];
      trashDir := trashDir - {TrashFile(id)};
      trashDir := trashDir - {MetaFile(id)};
      r := Pass;
    }

    /** `permanentDelete(id:)`: fails only when `<id>.trash` is absent; `<id>.meta` goes best-effort. */
    method PermanentDelete(id: Uuid) returns (r: Outcome<Error>)
      modifies this
      ensures r.Fail? <==> TrashFile(id) !in old(trashDir)
      ensures r.Fail? ==> r.error == Storage(DeleteFailed(NoSuchFile)) && trashDir == old(trashDir)
      ensures r.Pass? ==> trashDir == old(trashDir) - {TrashFile(id), MetaFile(id)}
      ensures vaultDir == old(vaultDir)
    {
      if TrashFile(id) !in trashDir {
        return Fail(Storage(DeleteFailed(NoSuchFile)));
      }
      trashDir := trashDir - {TrashFile(id)};
      trashDir := trashDir - {MetaFile(id)};
      r := Pass;
    }

    /** `listAllIDs()`. */
    function ListAllIds(): (ids: set<Uuid>)
      reads this
      ensures Vault().Keys <= ids
      ensures forall id :: id in ids <==> exists f :: f in vaultDir && f.ext == "vault" && ParseUuid(f.base) == Some(id)
    {
      IdsWithExtension(vaultDir, "vault")
    }

    /** `listTrashIDs()`. */
    function ListTrashIds(): (ids: set<Uuid>)
      reads this
      ensures forall id: Uuid :: TrashFile(id) in trashDir ==> id in ids
      ensures forall id :: id in ids <==> exists f :: f in trashDir && f.ext == "trash" && ParseUuid(f.base) == Some(id)
    {
      IdsWithExtension(trashDir, "trash")
    }

    /**
      `cleanExpiredTrash()` at time `now`: permanently deletes every listed trash id
      whose metadata is readable and expired (strictly). It stops at the first
      failing delete, which happens only for a listed id without its canonical
      `.trash` file.
     */
    method CleanExpiredTrash(now: Timestamp) returns (r: Outcome<Error>)
      modifies this
      ensures vaultDir == old(vaultDir)
      ensures r.Pass? <==> forall id :: id in ExpiredIds(old(trashDir), now) ==> TrashFile(id) in old(trashDir)
      ensures r.Pass? ==> trashDir == old(trashDir) - TrashEntries(ExpiredIds(old(trashDir), now))
      ensures r.Fail? ==> r.error == Storage(DeleteFailed(NoSuchFile))
      ensures r.Fail? ==> exists done :: (done <= ExpiredIds(old(trashDir), now) &&
        trashDir == old(trashDir) - TrashEntries(done))
    {
      var ids := ListTrashIds();
      ghost var expired := ExpiredIds(trashDir, now);
      var todo := ids;
      ghost var done: set<Uuid> := {};
      while todo != {}
        invariant todo <= ids
        invariant done == (ids - todo) * expired
        invariant trashDir == old(trashDir) - TrashEntries(done)
        invariant vaultDir == old(vaultDir)
        invariant forall id :: id in done ==> TrashFile(id) in old(trashDir)
        decreases todo
      {
        var id :| id in todo;
        VisitStep(ids, todo, expired, done, id);
        EntriesOfOthers(old(trashDir), done, id);
        var metadata := TrashMetadataOf(trashDir, id);
        if metadata.Some? && metadata.value.expirationDate < now {
          assert id in expired;
          r := PermanentDelete(id);
          if r.Fail? {
            assert done <= expired && trashDir == old(trashDir) - TrashEntries(done);
            return;
          }
          EntriesOneMore(old(trashDir), done, id);
          done := done + {id};
        } else {
          assert id !in expired;
        }
        todo := todo - {id};
      }
      assert done == expired;
      r := Pass;
    }

    /**
      `emptyTrash()`: permanently deletes every listed trash id, stopping at the
      first failing delete. Files whose names do not parse are not listed and stay.
     */
    method EmptyTrash() returns (r: Outcome<Error>)
      modifies this
      ensures vaultDir == old(vaultDir)
      ensures r.Pass? <==> forall id :: id in old(ListTrashIds()) ==> TrashFile(id) in old(trashDir)
      ensures r.Pass? ==> trashDir == old(trashDir) - TrashEntries(old(ListTrashIds()))
      ensures r.Pass? ==> forall id: Uuid :: TrashFile(id) !in trashDir
      ensures r.Fail? ==> r.error == Storage(DeleteFailed(NoSuchFile))
    {
      var ids := ListTrashIds();
      var todo := ids;
      ghost var done: set<Uuid> := {};
      while todo != {}
        invariant todo <= ids
        invariant done == ids - todo
        invariant trashDir == old(trashDir) - TrashEntries(done)
        invariant vaultDir == old(vaultDir)
        invariant forall id :: id in done ==> TrashFile(id) in old(trashDir)
        decreases todo
      {
        var id :| id in todo;
        EntriesOfOthers(old(trashDir), done, id);
        r := PermanentDelete(id);
        if r.Fail? {
          return;
        }
        EntriesOneMore(old(trashDir), done, id);
        done := done + {id};
        todo := todo - {id};
      }
      r := Pass;
    }

    /**
      `createBackup()`: loads every listed vault id, then the metadata. It reads
      only; the result is the encoded `VaultBackup`.
     */
    method CreateBackup() returns (r: Result<Data, Error>)
      ensures r == Backup(vaultDir)
      ensures r.Success? ==> DecodeBackup(r.value).Success? && DecodeBackup(r.value).value.items == Vault()
      ensures r.Success? <==> AllListedLoadable(vaultDir) && LoadMetadata().Success? && LoadMetadata().value.Some?
    {
      var ids := ListAllIds();
      var items: map<string, Data> := map[];
      var todo := ids;
      while todo != {}
        invariant todo <= ids
        invariant items.Keys == ids - todo
        invariant forall id :: id in ids - todo ==> VaultFile(id) in vaultDir && items[id] == vaultDir[VaultFile(id)]
        decreases todo
      {
        var id :| id in todo;
        var data := Load(id);
        if data.Failure? {
          assert !AllListedLoadable(vaultDir);
          return Failure(data.error);
        }
        items := items[id := data.value];
        todo := todo - {id};
      }
      assert AllListedLoadable(vaultDir);
      var metadata := LoadMetadata();
      if metadata.Failure? {
        return Failure(metadata.error);
      }
      if metadata.value.None? {
        return Failure(Storage(ReadFailed(MetadataNotFound)));
      }
      assert items == Vault();
      r := Success(Json(EncodedBackup(VaultBackup(metadata.value.value, items))));
    }

    /**
      `restoreBackup(_:)`: decode, overwrite the metadata, then save every item whose
      key parses as a UUID. Vault files the backup does not name are left alone.
     */
    method RestoreBackup(backupData: Data) returns (r: Outcome<Error>)
      modifies this
      ensures DecodeBackup(backupData).Failure? ==>
        r == Fail(DecodingFailure) && vaultDir == old(vaultDir)
      ensures DecodeBackup(backupData).Success? ==>
        r == Pass && RestoredFrom(old(vaultDir), vaultDir, DecodeBackup(backupData).value)
      ensures DecodeBackup(backupData).Success? ==>
        LoadMetadata() == Success(Some(DecodeBackup(backupData).value.metadata))
      ensures trashDir == old(trashDir)
    {
      var decoded := DecodeBackup(backupData);
      if decoded.Failure? {
        return Fail(decoded.error);
      }
      var backup := decoded.value;
      ghost var before := vaultDir;
      SaveMetadata(backup.metadata);
      ghost var base := vaultDir;
      var todo := backup.items.Keys;
      ghost var done: set<string> := {};
      SavedNothing(base, backup.items);
      while todo != {}
        invariant done + todo == backup.items.Keys && done !! todo
        invariant SavedItems(base, vaultDir, backup.items, done)
        invariant trashDir == old(trashDir)
        decreases todo
      {
        var key :| key in todo;
        RestoreItem(backup.items, key, base, done);
        done := done + {key};
        todo := todo - {key};
      }
      RestoreComplete(before, vaultDir, backup, done);
      r := Pass;
    }

    /** One iteration of `restoreBackup`: save the item of `key` when the key parses as a UUID. */
    method RestoreItem(items: map<string, Data>, key: string, ghost base: Directory, ghost done: set<string>)
      requires key in items && key !in done
      requires SavedItems(base, vaultDir, items, done)
      modifies this
      ensures SavedItems(base, vaultDir, items, done + {key})
      ensures trashDir == old(trashDir)
    {
      var parsed := ParseUuid(key);
      if parsed.Some? {
        SaveStep(base, vaultDir, items, done, key);
        Save(items[key], parsed.value);
      } else {
        SavedItemsMoreKeys(base, vaultDir, items, done, key);
      }
    }

    /** `saveMetadata(_:)`. */
    method SaveMetadata(metadata: VaultMetadata)
      modifies this
      ensures vaultDir == old(vaultDir)[MetadataFile := Json(EncodedVaultMetadata(metadata))]
      ensures trashDir == old(trashDir)
      ensures LoadMetadata() == Success(Some(metadata))
      ensures Vault() == old(Vault())
    {
      VaultMapMetadata(vaultDir, Json(EncodedVaultMetadata(metadata)));
      vaultDir := vaultDir[MetadataFile := Json(EncodedVaultMetadata(metadata))];
    }

    /** `loadMetadata()`. */
    function LoadMetadata(): (r: Result<Option<VaultMetadata>, Error>)
      reads this
      ensures r == ReadMetadata(vaultDir)
    {
      ReadMetadata(vaultDir)
    }
  }

  /** Removing the entries of `done` leaves the files of any other id as they were. */
  lemma EntriesOfOthers(trash: Directory, done: set<Uuid>, id: Uuid)
    requires id !in done
    ensures TrashFile(id) in trash - TrashEntries(done) <==> TrashFile(id) in trash
    ensures TrashMetadataOf(trash - TrashEntries(done), id) == TrashMetadataOf(trash, id)
  {
  }

  /** Visiting one more listed id adds it to the visited expired ids exactly when it is expired. */
  lemma VisitStep(ids: set<Uuid>, todo: set<Uuid>, expired: set<Uuid>, done: set<Uuid>, id: Uuid)
    requires id in todo && todo <= ids && done == (ids - todo) * expired
    ensures id !in done
    ensures id in expired ==> done + {id} == (ids - (todo - {id})) * expired
    ensures id !in expired ==> done == (ids - (todo - {id})) * expired
  {
  }

  /** Deleting one more id's two files extends the removed entries by that id. */
  lemma EntriesOneMore(trash: Directory, done: set<Uuid>, id: Uuid)
    ensures trash - TrashEntries(done) - {TrashFile(id), MetaFile(id)} == trash - TrashEntries(done + {id})
  {
  }

  /** One restore step for a key that parses: saving its item keeps `SavedItems`. */
  lemma SaveStep(base: Directory, dir: Directory, items: map<string, Data>, done: set<string>, key: string)
    requires key in items && key !in done && ParseUuid(key).Some?
    requires SavedItems(base, dir, items, done)
    ensures SavedItems(base, dir[VaultFile(ParseUuid(key).value) := items[key]], items, done + {key})
  {
    var id := ParseUuid(key).value;
    var after := dir[VaultFile(id) := items[key]];
    var keys := done + {key};
    assert RestoredIds(items, keys) == RestoredIds(items, done) + {id};
    assert RestoredFiles(items, keys) == RestoredFiles(items, done) + {VaultFile(id)};
    forall i | i in RestoredIds(items, keys)
      ensures VaultFile(i) in after && IsRestoredValue(items, keys, i, after[VaultFile(i)])
    {
      if i == id {
        assert IsRestoredValue(items, keys, i, items[key]);
      } else {
        assert i in RestoredIds(items, done);
        var k :| k in done && k in items && ParseUuid(k) == Some(i) && items[k] == dir[VaultFile(i)];
        assert k in keys;
      }
    }
  }

  /** Before any key is handled the directory is the base. */
  lemma SavedNothing(base: Directory, items: map<string, Data>)
    ensures SavedItems(base, base, items, {})
  {
    assert RestoredIds(items, {}) == {};
  }

  /** Once every key is handled the directory is a restore of the backup, metadata included. */
  lemma RestoreComplete(before: Directory, after: Directory, b: VaultBackup, keys: set<string>)
    requires keys == b.items.Keys
    requires SavedItems(before[MetadataFile := Json(EncodedVaultMetadata(b.metadata))], after, b.items, keys)
    ensures RestoredFrom(before, after, b)
    ensures ReadMetadata(after) == Success(Some(b.metadata))
  {
    SavedKeepsMetadata(before[MetadataFile := Json(EncodedVaultMetadata(b.metadata))], after, b.items, keys);
  }

  /** A restore never writes `metadata.json`. */
  lemma SavedKeepsMetadata(base: Directory, after: Directory, items: map<string, Data>, keys: set<string>)
    requires SavedItems(base, after, items, keys)
    ensures ReadMetadata(after) == ReadMetadata(base)
  {
    assert MetadataFile !in RestoredFiles(items, keys);
  }

  /** Handling a key that does not parse changes nothing. */
  lemma SavedItemsMoreKeys(base: Directory, dir: Directory, items: map<string, Data>, done: set<string>, key: string)
    requires ParseUuid(key).None?
    requires SavedItems(base, dir, items, done)
    ensures SavedItems(base, dir, items, done + {key})
  {
    var keys := done + {key};
    assert RestoredIds(items, keys) == RestoredIds(items, done);
    forall i | i in RestoredIds(items, keys)
      ensures IsRestoredValue(items, keys, i, dir[VaultFile(i)])
    {
      var k :| k in done && k in items && ParseUuid(k) == Some(i) && items[k] == dir[VaultFile(i)];
      assert k in keys;
    }
  }
}
