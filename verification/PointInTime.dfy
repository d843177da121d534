/**
 Point-in-time recovery: the base backup a restore is rolled forward from
 (internal/provider/backup.go) and the recovery window published for a storage
 (internal/provider/backup_status.go). Times are instants on one clock.
 */
module PointInTime {
  import opened Text

  /** A Backup of the source Instance, as listed. */
  datatype Backup = Backup(name: string, storage: string, succeeded: bool, completedAt: Option<int>)

  /** The operator's backup; its storage is in the spec or, failing that, in the status. */
  datatype OperatorBackup = OperatorBackup(cluster: string, specStorage: string, statusStorage: string, ready: bool,
                                           completedAt: Option<int>, latestRestorable: Option<int>)

  // ------------------------------------------------------------------
  // Base selection
  // ------------------------------------------------------------------

  /** A backup the stream can be rolled forward from to the target; no target is the end of the stream. */
  predicate Eligible(b: Backup, storage: string, target: Option<int>) {
    && b.storage == storage && b.succeeded && b.completedAt.Some?
    && (target.Some? ==> b.completedAt.value <= target.value)
  }

  /** best is the newest eligible backup: of equally new ones, the first listed. */
  ghost predicate IsBase(list: seq<Backup>, storage: string, target: Option<int>, best: Option<Backup>) {
    match best
    case None => forall i :: 0 <= i < |list| ==> !Eligible(list[i], storage, target)
    case Some(b) =>
      exists i :: 0 <= i < |list| && IsNewest(list, storage, target, i) && list[i] == b
  }

  ghost predicate IsNewest(list: seq<Backup>, storage: string, target: Option<int>, i: nat)
    requires i < |list|
  {
    && Eligible(list[i], storage, target)
    && forall j :: 0 <= j < |list| && Eligible(list[j], storage, target) ==>
         && list[j].completedAt.value <= list[i].completedAt.value
         && (j < i ==> list[j].completedAt.value < list[i].completedAt.value)
  }

  method SelectPITRBaseBackup(list: seq<Backup>, storage: string, target: Option<int>) returns (best: Option<Backup>)
    ensures IsBase(list, storage, target, best)
    ensures best.Some? ==>
      && best.value in list && best.value.storage == storage && best.value.succeeded && best.value.completedAt.Some?
      && (target.Some? ==> best.value.completedAt.value <= target.value)
    ensures forall b :: b in list && b.storage == storage && b.succeeded && b.completedAt.Some?
                        && (target.Some? ==> b.completedAt.value <= target.value) ==>
      best.Some? && b.completedAt.value <= best.value.completedAt.value
  {
    best := None;
    ghost var at: nat := 0;
    for i := 0 to |list|
      invariant best.None? ==> forall j :: 0 <= j < i ==> !Eligible(list[j], storage, target)
      invariant best.Some? ==> at < i && list[at] == best.value && IsNewest(list[..i], storage, target, at)
    {
      var b := list[i];
      if b.storage != storage || !b.succeeded || b.completedAt.None? {
        continue;
      }
      if target.Some? && b.completedAt.value > target.value {
        continue;
      }
      if best.None? || b.completedAt.value > best.value.completedAt.value {
        best := Some(b);
        at := i;
      }
    }
    assert list[..|list|] == list;
  }

  /** The same backups, in any order. */
  ghost predicate SameBackups(a: seq<Backup>, b: seq<Backup>) {
    forall x :: x in a <==> x in b
  }

  lemma BaseIsNewest(list: seq<Backup>, storage: string, target: Option<int>, best: Option<Backup>, x: Backup)
    requires IsBase(list, storage, target, best) && x in list && Eligible(x, storage, target)
    ensures best.Some? && best.value in list && Eligible(best.value, storage, target)
    ensures x.completedAt.value <= best.value.completedAt.value
  {
  }

  /** Whatever order the backups are listed in, the base is as new. */
  lemma SelectionIgnoresOrder(a: seq<Backup>, b: seq<Backup>, storage: string, target: Option<int>,
                              bestA: Option<Backup>, bestB: Option<Backup>)
    requires SameBackups(a, b)
    requires IsBase(a, storage, target, bestA) && IsBase(b, storage, target, bestB)
    ensures bestA.Some? <==> bestB.Some?
    ensures bestA.Some? ==> bestA.value.completedAt == bestB.value.completedAt
  {
    if bestA.Some? {
      BaseIsNewest(b, storage, target, bestB, bestA.value);
      BaseIsNewest(a, storage, target, bestA, bestB.value);
    } else if bestB.Some? {
      BaseIsNewest(a, storage, target, bestA, bestB.value);
    }
  }

  /** A later target never gives an older base, and never loses one. */
  lemma SelectionIsMonotone(list: seq<Backup>, storage: string, earlier: Option<int>, later: Option<int>,
                            best: Option<Backup>, bestLater: Option<Backup>)
    requires later.None? || (earlier.Some? && earlier.value <= later.value)
    requires IsBase(list, storage, earlier, best) && IsBase(list, storage, later, bestLater)
    ensures best.Some? ==> bestLater.Some? && best.value.completedAt.value <= bestLater.value.completedAt.value
  {
    if best.Some? {
      assert Eligible(best.value, storage, later);
      BaseIsNewest(list, storage, later, bestLater, best.value);
    }
  }

  // ------------------------------------------------------------------
  // The published window
  // ------------------------------------------------------------------

  predicate OnStream(b: OperatorBackup, cluster: string, storage: string) {
    && b.cluster == cluster
    && (if b.specStorage == "" then b.statusStorage else b.specStorage) == storage
    && b.ready && b.completedAt.Some?
  }

  predicate OldestFirst(s: seq<OperatorBackup>) {
    && (forall i :: 0 <= i < |s| ==> s[i].completedAt.Some?)
    && (forall i, j :: 0 <= i < j < |s| ==> s[i].completedAt.value <= s[j].completedAt.value)
  }

  /** Puts one backup in its place, after those as old. */
  method Insert(s: seq<OperatorBackup>, b: OperatorBackup) returns (out: seq<OperatorBackup>)
    requires OldestFirst(s) && b.completedAt.Some?
    ensures OldestFirst(out) && multiset(out) == multiset(s) + multiset{b}
  {
    var i := |s|;
    while i > 0 && s[i - 1].completedAt.value > b.completedAt.value
      invariant 0 <= i <= |s|
      invariant forall j :: i <= j < |s| ==> b.completedAt.value < s[j].completedAt.value
    {
      i := i - 1;
    }
    out := s[..i] + [b] + s[i..];
    InsertedInOrder(s, b, i);
    InsertedOnce(s, b, i);
  }

  lemma InsertedOnce(s: seq<OperatorBackup>, b: OperatorBackup, i: nat)
    requires i <= |s|
    ensures multiset(s[..i] + [b] + s[i..]) == multiset(s) + multiset{b}
  {
    assert s == s[..i] + s[i..];
  }

  lemma InsertedInOrder(s: seq<OperatorBackup>, b: OperatorBackup, i: nat)
    requires OldestFirst(s) && b.completedAt.Some? && i <= |s|
    requires i > 0 ==> s[i - 1].completedAt.value <= b.completedAt.value
    requires forall j :: i <= j < |s| ==> b.completedAt.value < s[j].completedAt.value
    ensures OldestFirst(s[..i] + [b] + s[i..])
  {
  }

  /** sort.Slice by completion time: some ordered arrangement of the same backups. */
  method SortOldestFirst(s: seq<OperatorBackup>) returns (out: seq<OperatorBackup>)
    requires forall i :: 0 <= i < |s| ==> s[i].completedAt.Some?
    ensures OldestFirst(out) && multiset(out) == multiset(s)
  {
    out := [];
    for i := 0 to |s|
      invariant OldestFirst(out) && multiset(out) == multiset(s[..i])
    {
      assert s[..i + 1] == s[..i] + [s[i]];
      out := Insert(out, s[i]);
    }
    assert s[..|s|] == s;
  }

  function Filtered(all: seq<OperatorBackup>, cluster: string, storage: string): (out: seq<OperatorBackup>)
    ensures forall b :: b in out <==> b in all && OnStream(b, cluster, storage)
  {
    if all == [] then []
    else
      var last := all[|all| - 1];
      assert all == all[..|all| - 1] + [last];
      Filtered(all[..|all| - 1], cluster, storage) + if OnStream(last, cluster, storage) then [last] else []
  }

  /** Completed, ready backups of the cluster on the storage, as often as they are listed, and no others. */
  lemma {:induction false} FilteredExactly(all: seq<OperatorBackup>, cluster: string, storage: string,
                                           b: OperatorBackup)
    ensures multiset(Filtered(all, cluster, storage))[b] ==
      if && b.cluster == cluster && b.ready && b.completedAt.Some?
         && ((b.specStorage != "" && b.specStorage == storage) || (b.specStorage == "" && b.statusStorage == storage))
      then multiset(all)[b] else 0
  {
    if all != [] {
      var n := |all| - 1;
      FilteredExactly(all[..n], cluster, storage, b);
      assert all == all[..n] + [all[n]];
    }
  }

  method CollectStorageBackups(all: seq<OperatorBackup>, cluster: string, storage: string)
    returns (out: seq<OperatorBackup>)
    ensures OldestFirst(out)
    ensures multiset(out) == multiset(Filtered(all, cluster, storage))
  {
    out := [];
    for i := 0 to |all|
      invariant out == Filtered(all[..i], cluster, storage)
    {
      assert all[..i + 1][..i] == all[..i];
      var b := all[i];
      var storageName := b.specStorage;
      if storageName == "" {
        storageName := b.statusStorage;
      }
      if b.cluster != cluster || storageName != storage || !b.ready || b.completedAt.None? {
        continue;
      }
      out := out + [b];
    }
    assert all[..|all|] == all;
    assert forall k :: 0 <= k < |out| ==> out[k] in out;
    out := SortOldestFirst(out);
  }

  datatype Window = NoBackup | NoRestorableTime | Available(earliest: int, latest: int)

  /** w is the window of these backups, however they are ordered. */
  ghost predicate IsWindow(backups: seq<OperatorBackup>, w: Window) {
    match w
    case NoBackup => backups == []
    case NoRestorableTime => backups != [] && forall b :: b in backups ==> b.latestRestorable.None?
    case Available(earliest, latest) =>
      && (exists b :: b in backups && b.completedAt == Some(earliest))
      && (forall b :: b in backups ==> b.completedAt.Some? && earliest <= b.completedAt.value)
      && (exists b :: b in backups && b.latestRestorable == Some(latest))
      && (forall b :: b in backups && b.latestRestorable.Some? ==> b.latestRestorable.value <= latest)
  }

  method PitrWindow(backups: seq<OperatorBackup>) returns (w: Window)
    requires OldestFirst(backups)
    ensures IsWindow(backups, w)
  {
    if |backups| == 0 {
      return NoBackup;
    }
    var latest: Option<int> := None;
    for i := 0 to |backups|
      invariant latest.None? ==> forall j :: 0 <= j < i ==> backups[j].latestRestorable.None?
      invariant latest.Some? ==> exists j :: 0 <= j < i && backups[j].latestRestorable == latest
      invariant latest.Some? ==> forall j :: 0 <= j < i && backups[j].latestRestorable.Some? ==>
        backups[j].latestRestorable.value <= latest.value
    {
      var t := backups[i].latestRestorable;
      if t.Some? && (latest.None? || t.value > latest.value) {
        latest := t;
      }
    }
    if latest.None? {
      return NoRestorableTime;
    }
    assert backups[0] in backups;
    return Available(backups[0].completedAt.value, latest.value);
  }

  /** What BackupStorageStatuses publishes for one storage. */
  method PublishedWindow(all: seq<OperatorBackup>, cluster: string, storage: string) returns (w: Window)
    ensures IsWindow(Filtered(all, cluster, storage), w)
  {
    var backups := CollectStorageBackups(all, cluster, storage);
    w := PitrWindow(backups);
    SameMembers(backups, Filtered(all, cluster, storage));
    WindowOfSameMembers(backups, Filtered(all, cluster, storage), w);
  }

  lemma SameMembers(a: seq<OperatorBackup>, b: seq<OperatorBackup>)
    requires multiset(a) == multiset(b)
    ensures |a| == |b| && forall x :: x in a <==> x in b
  {
    assert |multiset(a)| == |a| && |multiset(b)| == |b|;
    assert forall x :: x in a <==> x in multiset(a);
    assert forall x :: x in b <==> x in multiset(b);
  }

  lemma WindowOfSameMembers(a: seq<OperatorBackup>, b: seq<OperatorBackup>, w: Window)
    requires IsWindow(a, w) && |a| == |b| && forall x :: x in a <==> x in b
    ensures IsWindow(b, w)
  {
  }

  /** The window is a function of the set of backups: order and sorting cannot show. */
  lemma WindowIsUnique(backups: seq<OperatorBackup>, v: Window, w: Window)
    requires IsWindow(backups, v) && IsWindow(backups, w)
    ensures v == w
  {
    if backups != [] {
      assert backups[0] in backups;
    }
    if v.Available? && w.Available? {
      var x :| x in backups && x.completedAt == Some(v.earliest);
      var y :| y in backups && y.completedAt == Some(w.earliest);
      var p :| p in backups && p.latestRestorable == Some(v.latest);
      var q :| q in backups && q.latestRestorable == Some(w.latest);
    }
  }

  // ------------------------------------------------------------------
  // Selection against the window
  // ------------------------------------------------------------------

  /** Both lists know the same completion times on the stream. */
  ghost predicate SameCompletions(list: seq<Backup>, operator: seq<OperatorBackup>, storage: string) {
    forall t :: (exists b :: b in list && Eligible(b, storage, None) && b.completedAt == Some(t))
                <==> (exists o :: o in operator && o.completedAt == Some(t))
  }

  /**
   Whenever a window is published, a target is restorable, in that a base is
   found for it, exactly from the published earliest time on.
   */
  lemma BaseFoundIffInWindow(list: seq<Backup>, operator: seq<OperatorBackup>, storage: string, w: Window,
                             target: int, best: Option<Backup>)
    requires SameCompletions(list, operator, storage)
    requires IsWindow(operator, w) && w.Available?
    requires IsBase(list, storage, Some(target), best)
    ensures best.Some? <==> w.earliest <= target
  {
    if w.earliest <= target {
      var o :| o in operator && o.completedAt == Some(w.earliest);
      var b :| b in list && Eligible(b, storage, None) && b.completedAt == Some(w.earliest);
      BaseIsNewest(list, storage, Some(target), best, b);
    }
    if best.Some? {
      var b := best.value;
      assert b in list && Eligible(b, storage, None) && b.completedAt == Some(b.completedAt.value);
      var o :| o in operator && o.completedAt == Some(b.completedAt.value);
    }
  }

  /** And a target for which a base is found belongs to a storage with a ready backup. */
  lemma BaseNeedsReadyBackup(list: seq<Backup>, operator: seq<OperatorBackup>, storage: string, w: Window,
                             target: Option<int>, best: Option<Backup>)
    requires SameCompletions(list, operator, storage)
    requires IsWindow(operator, w) && IsBase(list, storage, target, best)
    ensures best.Some? ==> !w.NoBackup?
  {
    if best.Some? {
      var b := best.value;
      assert b in list && Eligible(b, storage, None) && b.completedAt == Some(b.completedAt.value);
    }
  }
}
