/**
 Which credentials a validated Instance is seeded with: the checks on the data
 source and the user secret (internal/provider/validate.go), and the resolution
 of the source Instance (internal/provider/provider.go).
 */
module SeedSources {
  import opened Text

  datatype OriginType = FromInstance | External | UnknownOrigin

  datatype Backup = Backup(origin: OriginType, instance: Option<string>)

  type BackupRead = Reading<Backup>

  /** spec.dataSource; names are empty when unset. */
  datatype DataSource =
    | FromBackup(backupGiven: bool, backupName: string)
    | PointInTime(instance: Option<string>)
    | OtherSource

  datatype Problem = BackupRequired | SecretForbidden | SecretRequired | BackupNotFound | OriginUnknown
                   | SecretInvalid | KeysMissing

  /** The user secret: unreadable, refused by the schema (absent included), or its non-empty keys. */
  datatype UserSecretRead = Broken | Refused | Accepted(keys: set<string>)

  const USER_SECRET_KEYS: seq<string> := [
    "MONGODB_BACKUP_USER", "MONGODB_BACKUP_PASSWORD",
    "MONGODB_CLUSTER_ADMIN_USER", "MONGODB_CLUSTER_ADMIN_PASSWORD",
    "MONGODB_CLUSTER_MONITOR_USER", "MONGODB_CLUSTER_MONITOR_PASSWORD",
    "MONGODB_DATABASE_ADMIN_USER", "MONGODB_DATABASE_ADMIN_PASSWORD",
    "MONGODB_USER_ADMIN_USER", "MONGODB_USER_ADMIN_PASSWORD"]

  function ValidateDataSource(ds: Option<DataSource>, ref: bool): seq<Problem> {
    match ds
    case None => []
    case Some(FromBackup(given, name)) => if !given || name == "" then [BackupRequired] else []
    case Some(PointInTime(_)) => if ref then [SecretForbidden] else []
    case Some(OtherSource) => []
  }

  /** A backup source must name its Backup, and a point in time leaves no room for a user secret. */
  lemma DataSourceObjections(ds: Option<DataSource>, ref: bool)
    ensures var problems := ValidateDataSource(ds, ref);
            && (problems == [BackupRequired] <==>
                  ds.Some? && ds.value.FromBackup? && (!ds.value.backupGiven || ds.value.backupName == ""))
            && (problems == [SecretForbidden] <==> ds.Some? && ds.value.PointInTime? && ref)
            && (problems != [] ==> problems in {[BackupRequired], [SecretForbidden]})
  {
  }

  /** The users an external backup's secret must hold credentials for. */
  lemma CompleteIs(keys: set<string>)
    ensures Complete(keys) <==>
      {"MONGODB_BACKUP_USER", "MONGODB_BACKUP_PASSWORD",
       "MONGODB_CLUSTER_ADMIN_USER", "MONGODB_CLUSTER_ADMIN_PASSWORD",
       "MONGODB_CLUSTER_MONITOR_USER", "MONGODB_CLUSTER_MONITOR_PASSWORD",
       "MONGODB_DATABASE_ADMIN_USER", "MONGODB_DATABASE_ADMIN_PASSWORD",
       "MONGODB_USER_ADMIN_USER", "MONGODB_USER_ADMIN_PASSWORD"} <= keys
  {
    var all := USER_SECRET_KEYS;
    assert Complete(keys) ==>
      && all[0] in keys && all[1] in keys && all[2] in keys && all[3] in keys && all[4] in keys
      && all[5] in keys && all[6] in keys && all[7] in keys && all[8] in keys && all[9] in keys;
  }

  method ValidateUserSecret(ds: Option<DataSource>, ref: bool, read: BackupRead, secret: UserSecretRead)
    returns (r: Result<seq<Problem>>)
    ensures r == Success([]) <==> SeedAccepted(ds, ref, read, secret)
    ensures ds.None? ==>
      && (r.Failure? <==> ref && secret.Broken?)
      && (r == Success([SecretInvalid]) <==> ref && secret.Refused?)
      && (r == Success([]) <==> !ref || secret.Accepted?)
    ensures ds.Some? && !ds.value.FromBackup? ==> r == Success([])
    ensures ds.Some? && ds.value.FromBackup? ==>
      var external := read.Found? && read.value.origin.External?;
      && (r.Failure? <==> read.Unreadable? || (external && ref && secret.Broken?))
      && (r == Success([BackupNotFound]) <==> read.NotFound?)
      && (r == Success([OriginUnknown]) <==> read.Found? && read.value.origin.UnknownOrigin?)
      && (r == Success([SecretForbidden]) <==> read.Found? && read.value.origin.FromInstance? && ref)
      && (r == Success([SecretRequired]) <==> external && !ref)
      && (r == Success([SecretInvalid]) <==> external && ref && secret.Refused?)
      && (r == Success([KeysMissing]) <==> external && ref && secret.Accepted? && !Complete(secret.keys))
  {
    if ds.None? {
      if !ref {
        return Success([]);
      }
      return match secret
        case Broken => Failure
        case Refused => Success([SecretInvalid])
        case Accepted(_) => Success([]);
    }
    if !ds.value.FromBackup? {
      return Success([]);
    }
    if read.NotFound? {
      return Success([BackupNotFound]);
    }
    if read.Unreadable? {
      return Failure;
    }
    match read.value.origin {
      case FromInstance =>
        return if ref then Success([SecretForbidden]) else Success([]);
      case UnknownOrigin =>
        return Success([OriginUnknown]);
      case External =>
        if !ref {
          return Success([SecretRequired]);
        }
        if !secret.Accepted? {
          return if secret.Broken? then Failure else Success([SecretInvalid]);
        }
        var missing := [];
        for i := 0 to |USER_SECRET_KEYS|
          invariant missing == [] <==> forall k :: 0 <= k < i ==> USER_SECRET_KEYS[k] in secret.keys
        {
          if USER_SECRET_KEYS[i] !in secret.keys {
            missing := missing + [USER_SECRET_KEYS[i]];
          }
        }
        return if |missing| > 0 then Success([KeysMissing]) else Success([]);
    }
  }

  /** Complete for the operator: it would otherwise generate the missing ones. */
  predicate Complete(keys: set<string>) {
    forall k :: 0 <= k < |USER_SECRET_KEYS| ==> USER_SECRET_KEYS[k] in keys
  }

  predicate SeedAccepted(ds: Option<DataSource>, ref: bool, read: BackupRead, secret: UserSecretRead) {
    match ds
    case None => ref ==> secret.Accepted?
    case Some(FromBackup(_, _)) =>
      && read.Found?
      && (match read.value.origin
          case FromInstance => !ref
          case External => ref && secret.Accepted? && Complete(secret.keys)
          case UnknownOrigin => false)
    case Some(_) => true
  }

  /** dataSourceInstanceName: an empty name means not resolvable yet. */
  function SourceInstance(ds: DataSource, read: BackupRead): Result<string> {
    match ds
    case FromBackup(given, name) =>
      if !given || name == "" then Success("")
      else (match read
        case NotFound => Success("")
        case Unreadable => Failure
        case Found(backup) => if backup.instance.None? then Failure else Success(backup.instance.value))
    case PointInTime(instance) => Success(if instance.Some? then instance.value else "")
    case OtherSource => Success("")
  }

  /** What one Sync pass does about credentials not copied yet. */
  datatype Seeding = NotSeeded | FromUserSecret | FromSource(instance: string) | GoesOnUnresolved | EndsPass

  function PassSeeding(ds: Option<DataSource>, ref: bool, read: BackupRead): Seeding {
    if ref then FromUserSecret
    else if ds.None? then NotSeeded
    else match SourceInstance(ds.value, read)
      case Failure => EndsPass
      case Success(name) => if name == "" then GoesOnUnresolved else FromSource(name)
  }

  /** Which pass seeds what, by the kind of source; a user's secret goes first. */
  lemma SeedingBySource(ds: Option<DataSource>, ref: bool, read: BackupRead)
    ensures ref ==> PassSeeding(ds, ref, read) == FromUserSecret
    ensures !ref && ds.None? ==> PassSeeding(ds, ref, read) == NotSeeded
    ensures !ref && ds.Some? && ds.value.PointInTime? ==>
      PassSeeding(ds, ref, read) ==
        if ds.value.instance.None? || ds.value.instance == Some("") then GoesOnUnresolved
        else FromSource(ds.value.instance.value)
    ensures !ref && ds == Some(OtherSource) ==> PassSeeding(ds, ref, read) == GoesOnUnresolved
    ensures !ref && ds.Some? && ds.value.FromBackup? && (!ds.value.backupGiven || ds.value.backupName == "") ==>
      PassSeeding(ds, ref, read) == GoesOnUnresolved
  {
  }

  /**
   Validation and Sync read the Backup separately. A pass for a validated
   Instance seeds from the user's secret exactly if the backup was external when
   validated, goes on unresolved exactly if the Backup is gone by then or names
   the empty Instance, ends if it is unreadable or names none, and otherwise
   seeds from the Instance it names.
   */
  lemma ValidatedBackupSourceSeeds(ds: DataSource, ref: bool, validated: BackupRead, secret: UserSecretRead,
                                   synced: BackupRead)
    requires ds.FromBackup? && ValidateDataSource(Some(ds), ref) == []
    requires SeedAccepted(Some(ds), ref, validated, secret)
    ensures var seeding := PassSeeding(Some(ds), ref, synced);
            && (seeding.FromUserSecret? <==> validated.value.origin.External?)
            && (seeding.FromUserSecret? ==> Complete(secret.keys))
            && (validated.value.origin.FromInstance? ==>
                  && (seeding.GoesOnUnresolved? <==>
                        synced.NotFound? || (synced.Found? && synced.value.instance == Some("")))
                  && (seeding.EndsPass? <==> synced.Unreadable? || (synced.Found? && synced.value.instance.None?))
                  && (seeding.FromSource? ==> Some(seeding.instance) == synced.value.instance))
            && !seeding.NotSeeded?
  {
  }
}
