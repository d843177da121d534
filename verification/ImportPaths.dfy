/**
 Importing a backup from its metadata object (internal/provider/backup_import.go)
 and restoring from the imported Backup (internal/provider/backup.go): the path
 written by one is taken apart by the other.
 */
module ImportPaths {
  import opened Text

  const METADATA_SUFFIX := ".pbm.json"
  const DONE := "done"

  /** The external Backup an import creates. */
  datatype Imported = Imported(path: string, storage: string, retain: bool)

  /** parsePBM after decoding: only completed backups are importable, and their data is not the provider's to purge. */
  function ParsePBM(status: string, storage: string, key: string): Option<Imported> {
    if status != DONE then None else Some(Imported(TrimSuffix(key, METADATA_SUFFIX), storage, true))
  }

  /** strings.Trim on slashes. */
  function TrimSlashes(s: string): (t: string)
    ensures t != "" ==> t[0] != '/' && t[|t| - 1] != '/'
    ensures |t| <= |s|
    ensures s != "" && s[0] == '/' ==> |t| < |s|
    ensures s != "" && s[0] != '/' && s[|s| - 1] != '/' ==> t == s
  {
    if s == "" then ""
    else if s[0] == '/' then TrimSlashes(s[1..])
    else if s[|s| - 1] == '/' then TrimSlashes(s[..|s| - 1])
    else s
  }

  /** Nothing but slashes. */
  predicate Slashes(s: string) {
    forall k :: 0 <= k < |s| ==> s[k] == '/'
  }

  /** Trimming takes off slashes, and nothing else. */
  lemma {:induction false} TrimTakesOffSlashes(s: string) returns (before: string, after: string)
    ensures s == before + TrimSlashes(s) + after && Slashes(before) && Slashes(after)
  {
    if s == "" {
      before, after := "", "";
    } else if s[0] == '/' {
      before, after := TrimTakesOffSlashes(s[1..]);
      before := "/" + before;
    } else if s[|s| - 1] == '/' {
      before, after := TrimTakesOffSlashes(s[..|s| - 1]);
      after := after + "/";
    } else {
      before, after := "", "";
    }
  }

  datatype Source = Source(destination: string, prefix: string)

  /** The storage as buildExternalBackupSource finds it. */
  type StorageRead = Reading<Storage>

  datatype Storage = Bucket(name: string) | NotS3

  datatype Outcome = Ready(source: Source) | Waiting | Failed | Error

  function BuildExternalBackupSource(path: string, storage: StorageRead): Outcome {
    if path == "" then Failed
    else match storage
      case NotFound => Waiting
      case Unreadable => Error
      case Found(NotS3) => Failed
      case Found(Bucket(bucket)) => Ready(SourceAt(bucket, TrimSlashes(path)))
  }

  function SourceAt(bucket: string, trimmed: string): Source {
    var i := LastIndex(trimmed, '/');
    Source(Destination(bucket, trimmed), if i >= 0 then trimmed[..i] else "")
  }

  function Destination(bucket: string, trimmed: string): string {
    "s3://" + bucket + "/" + trimmed
  }

  function LastElement(path: string): string {
    path[LastIndex(path, '/') + 1..]
  }

  /** Where the engine looks for the metadata: under the prefix, next to the data. */
  function MetadataKey(source: Source): string {
    var name := LastElement(source.destination);
    (if source.prefix == "" then name else source.prefix + "/" + name) + METADATA_SUFFIX
  }

  /** A metadata key: a directory, empty or ending in a slash, and a non-empty slash-free backup name. */
  predicate IsMetadataKey(key: string, directory: string, name: string) {
    && key == directory + name + ".pbm.json"
    && (directory == "" || directory[|directory| - 1] == '/')
    && name != "" && '/' !in name
  }

  lemma LastElementIs(prefix: string, name: string)
    requires '/' !in name
    ensures LastIndex(prefix + "/" + name, '/') == |prefix| && LastElement(prefix + "/" + name) == name
  {
    var s := prefix + "/" + name;
    assert s[|prefix|] == '/' && s[|prefix| + 1..] == name;
    assert forall k :: |prefix| < k < |s| ==> s[k] == name[k - |prefix| - 1];
    LastIndexUnique(s, '/', |prefix|);
  }

  lemma ImportedPath(storage: string, key: string, directory: string, name: string)
    requires IsMetadataKey(key, directory, name)
    ensures ParsePBM(DONE, storage, key) == Some(Imported(directory + name, storage, true))
  {
  }

  /** A path with a parent splits into it and the name. */
  lemma NestedSplits(bucket: string, parent: string, name: string)
    requires '/' !in name
    ensures var s := SourceAt(bucket, parent + "/" + name);
            s.prefix == parent && LastElement(s.destination) == name
  {
    LastElementIs(parent, name);
    assert (parent + "/" + name)[..|parent|] == parent;
    DestinationNests(bucket, parent, name);
    LastElementIs(Destination(bucket, parent), name);
  }

  lemma DestinationNests(bucket: string, parent: string, name: string)
    ensures Destination(bucket, parent + "/" + name) == Destination(bucket, parent) + "/" + name
  {
  }

  lemma TopLevelSplits(bucket: string, name: string)
    requires '/' !in name
    ensures var s := SourceAt(bucket, name);
            s.prefix == "" && LastElement(s.destination) == name
  {
    LastIndexUnique(name, '/', -1);
    LastElementIs("s3://" + bucket, name);
  }

  /** The engine looks for the metadata right beside the trimmed path. */
  lemma MetadataBesidePath(bucket: string, trimmed: string)
    requires trimmed == "" || trimmed[0] != '/'
    ensures MetadataKey(SourceAt(bucket, trimmed)) == trimmed + METADATA_SUFFIX
  {
    var i := LastIndex(trimmed, '/');
    if i >= 0 {
      var parent, name := trimmed[..i], trimmed[i + 1..];
      assert trimmed == parent + "/" + name && parent != "";
      NestedSplits(bucket, parent, name);
    } else {
      TopLevelSplits(bucket, trimmed);
    }
  }

  /**
   The restore source built from an imported Backup points back at the metadata
   object it was imported from, exactly when the key has no leading slash; its
   destination is then the key without the suffix, in the bucket.
   */
  lemma ImportRestoreRoundTrip(storage: string, bucket: string, key: string, directory: string, name: string)
    requires IsMetadataKey(key, directory, name)
    ensures ParsePBM(DONE, storage, key).Some?
    ensures var outcome := BuildExternalBackupSource(ParsePBM(DONE, storage, key).value.path, Found(Bucket(bucket)));
            && outcome.Ready?
            && (MetadataKey(outcome.source) == key <==> key[0] != '/')
            && (key[0] != '/' ==>
                  outcome.source.destination == "s3://" + bucket + "/" + TrimSuffix(key, METADATA_SUFFIX))
  {
    ImportedPath(storage, key, directory, name);
    var path := directory + name;
    assert path != "" && key == path + METADATA_SUFFIX && key[0] == path[0];
    assert path[|path| - 1] == name[|name| - 1];
    MetadataBesidePath(bucket, TrimSlashes(path));
    if path[0] != '/' {
      assert TrimSlashes(path) == path;
    }
  }

  /** Exactly the completed backups are imported, and retained. */
  lemma ImportedIffDone(status: string, storage: string, key: string)
    ensures ParsePBM(status, storage, key).Some? <==> status == "done"
    ensures ParsePBM(status, storage, key).Some? ==>
      var imported := ParsePBM(status, storage, key).value;
      imported.retain && imported.storage == storage
  {
  }

  /**
   A restore from an external backup fails exactly without a path or with a
   storage that is not S3, waits exactly for a storage that is not there yet, and
   is retried exactly if the storage cannot be read.
   */
  lemma OutcomesOfRestore(path: string, storage: StorageRead)
    ensures var outcome := BuildExternalBackupSource(path, storage);
            && (outcome.Failed? <==> path == "" || storage == Found(NotS3))
            && (outcome.Waiting? <==> path != "" && storage.NotFound?)
            && (outcome.Error? <==> path != "" && storage.Unreadable?)
            && (outcome.Ready? <==> path != "" && storage.Found? && storage.value.Bucket?)
  {
  }

  /** What importBackupName hashes: different imports never feed the hash the same text. */
  function NameSeed(storage: string, path: string): string {
    storage + ['\0'] + path
  }

  lemma NameSeedInjective(storageA: string, pathA: string, storageB: string, pathB: string)
    requires '\0' !in storageA && '\0' !in storageB
    ensures NameSeed(storageA, pathA) == NameSeed(storageB, pathB) <==> storageA == storageB && pathA == pathB
  {
    if NameSeed(storageA, pathA) == NameSeed(storageB, pathB) {
      FirstPart(storageA, storageB, pathA, pathB, '\0');
    }
  }
}
