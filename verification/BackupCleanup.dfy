/**
 Deleting a backup (internal/provider/backup.go): CleanupBackup and the
 finalizer SyncBackup sets, against the operator that purges the storage of a
 backup deleted under that finalizer. The operator may act on any version of
 the object it has seen, and anyone may delete the object.
 */
module BackupCleanup {
  import opened Text

  datatype Policy = Retain | DeleteData

  /** The operator's backup resource: the delete-backup finalizer, and whether it is terminating. */
  datatype Object = Object(finalizer: bool, terminating: bool, version: nat)

  // ------------------------------------------------------------------
  // API calls
  // ------------------------------------------------------------------

  /** A terminating object without finalizers is gone. */
  function Settled(o: Object): Option<Object> {
    if o.terminating && !o.finalizer then None else Some(o.(version := o.version + 1))
  }

  function Deleted(o: Object): Option<Object> {
    Settled(o.(terminating := true))
  }

  function Unprotected(o: Object): Option<Object> {
    Settled(o.(finalizer := false))
  }

  datatype Faults = Faults(get: bool, update: bool, delete: bool)

  /** The finalizer goes before a retained backup is deleted. */
  predicate Strips(policy: Policy, o: Object) {
    policy.Retain? && o.finalizer
  }

  /** What a cleanup without failures and interference leaves. */
  function CleanedUp(policy: Policy, o: Object): Option<Object> {
    var stripped := if Strips(policy, o) then Unprotected(o) else Some(o);
    if o.terminating || stripped.None? then stripped else Deleted(stripped.value)
  }

  /**
   A retained backup is gone at once, unless it was ending without the finalizer
   already; one whose data is to be deleted stays terminating under the
   finalizer as long as it has it.
   */
  lemma CleanedUpIs(policy: Policy, o: Object)
    ensures policy.Retain? && (o.finalizer || !o.terminating) ==> CleanedUp(policy, o) == None
    ensures policy.DeleteData? && o.terminating ==> CleanedUp(policy, o) == Some(o)
    ensures policy.DeleteData? && !o.terminating && !o.finalizer ==> CleanedUp(policy, o) == None
    ensures policy.DeleteData? && !o.terminating && o.finalizer ==>
      CleanedUp(policy, o) == Some(Object(true, true, o.version + 1))
  {
  }

  class BackupStore {
    var resource: Option<Object>

    /** One uninterrupted cleanup: done only once the object is gone. */
    method CleanupBackup(policy: Policy, faults: Faults) returns (r: Result<bool>)
      modifies this
      ensures r == Success(true) <==> !faults.get && old(resource).None?
      ensures r.Failure? <==>
        || faults.get
        || (old(resource).Some? && policy.Retain? && old(resource).value.finalizer && faults.update)
        || (old(resource).Some? && !old(resource).value.terminating && faults.delete)
      ensures old(resource).None? || faults.get ==> resource == old(resource)
      ensures r.Success? && old(resource).Some? ==> resource == CleanedUp(policy, old(resource).value)
      ensures r.Failure? && old(resource).Some? && !faults.get ==>
        resource == if Strips(policy, old(resource).value) && !faults.update
                    then Unprotected(old(resource).value) else old(resource)
      ensures old(resource).Some? && resource.Some? && policy.Retain? && !old(resource).value.terminating ==>
        !(resource.value.finalizer && resource.value.terminating)
    {
      if faults.get {
        return Failure;
      }
      if resource.None? {
        return Success(true);
      }
      var read := resource.value;
      if policy.Retain? && read.finalizer {
        if faults.update {
          return Failure;
        }
        resource := Unprotected(read);
      }
      if !read.terminating {
        if faults.delete {
          return Failure;
        }
        if resource.Some? {
          resource := Deleted(resource.value);
        }
      }
      return Success(false);
    }
  }

  // ------------------------------------------------------------------
  // Steps
  // ------------------------------------------------------------------

  /** Where a cleanup pass stands, with the object it read. */
  datatype Pc = Idle | Checked(read: Object) | Deciding(terminating: bool)

  /**
   stored: the backup's data is in the storage. armed: some version of the
   object was terminating under the finalizer, so the operator may purge.
   */
  datatype State = State(current: Option<Object>, stored: bool, armed: bool, existed: bool, synced: bool,
                         ending: bool, done: bool, pc: Pc)

  datatype Step =
    | SyncBackup
    | BeginDeletion
    | Get
    | Strip
    | SkipStrip
    | Delete
    | Crash
    | OperatorSchedules
    | OperatorPurges
    | OperatorReleases
    | ForeignDelete

  predicate Enabled(policy: Policy, s: State, step: Step) {
    match step
    case SyncBackup => !s.ending
    case BeginDeletion => true
    case Get => s.ending && s.pc.Idle?
    case Strip => s.pc.Checked? && policy.Retain? && s.pc.read.finalizer
    case SkipStrip => s.pc.Checked? && !(policy.Retain? && s.pc.read.finalizer)
    case Delete => s.pc.Deciding?
    case Crash => true
    case OperatorSchedules => !s.existed && !s.ending
    case OperatorPurges => s.armed
    case OperatorReleases => s.current.Some? && s.current.value.terminating && s.current.value.finalizer && !s.stored
    case ForeignDelete => s.current.Some? && !s.current.value.terminating
  }

  predicate Armed(o: Option<Object>) {
    o.Some? && o.value.terminating && o.value.finalizer
  }

  /** The object changes to o, a version the operator may see. */
  function Store(s: State, o: Option<Object>): State {
    s.(current := o, armed := s.armed || Armed(o))
  }

  /** SyncBackup: create under the finalizer, or add it; a terminating object takes no new finalizer. */
  function Synced(s: State): State {
    match s.current
    case None =>
      s.(current := Some(Object(true, false, 0)), stored := true, armed := false, existed := true, synced := true)
    case Some(o) =>
      if o.finalizer then s.(synced := true)
      else if o.terminating then s
      else Store(s.(synced := true), Some(o.(finalizer := true, version := o.version + 1)))
  }

  function After(policy: Policy, s: State, step: Step): State
    requires Enabled(policy, s, step)
  {
    match step
    case SyncBackup => Synced(s)
    case BeginDeletion => s.(ending := true)
    case Get => if s.current.None? then s.(done := true) else s.(pc := Checked(s.current.value))
    case Strip =>
      if s.current == Some(s.pc.read)
      then Store(s, Unprotected(s.pc.read)).(pc := Deciding(s.pc.read.terminating))
      else s.(pc := Idle)
    case SkipStrip => s.(pc := Deciding(s.pc.read.terminating))
    case Delete =>
      if s.pc.terminating || s.current.None? then s.(pc := Idle)
      else Store(s, Deleted(s.current.value)).(pc := Idle)
    case Crash => s.(pc := Idle)
    case OperatorSchedules => s.(current := Some(Object(false, false, 0)), stored := true, existed := true)
    case OperatorPurges => s.(stored := false)
    case OperatorReleases => s.(current := None)
    case ForeignDelete => Store(s, Deleted(s.current.value))
  }

  /** After SyncBackup there is an object, under the finalizer unless it was ending without it, and none is deleted. */
  lemma SyncProtects(policy: Policy, s: State)
    requires Enabled(policy, s, SyncBackup)
    ensures var t := After(policy, s, SyncBackup);
            && t.current.Some?
            && (s.current.None? ==> t.current.value.finalizer && !t.current.value.terminating && t.stored)
            && (s.current.Some? ==>
                  && t.current.value.terminating == s.current.value.terminating && t.stored == s.stored
                  && (t.current.value.finalizer <==> s.current.value.finalizer || !s.current.value.terminating))
  {
  }

  /** The steps of one cleanup, with nothing in between, do what the operation does. */
  lemma StepsCleanUp(policy: Policy, s: State)
    requires s.ending && s.pc.Idle? && s.current.Some?
    ensures var s1 := After(policy, s, Get);
            var strip := if policy.Retain? && s.current.value.finalizer then Strip else SkipStrip;
            && Enabled(policy, s, Get) && Enabled(policy, s1, strip)
            && var s2 := After(policy, s1, strip);
            && Enabled(policy, s2, Delete)
            && var s3 := After(policy, s2, Delete);
            && s3.current == CleanedUp(policy, s.current.value) && s3.pc.Idle? && s3.done == s.done
  {
  }

  /** A pass that is interrupted, or finds the object changed under it, changes nothing and starts over. */
  lemma InterruptedPassStartsOver(policy: Policy, s: State)
    ensures Enabled(policy, s, Crash) && After(policy, s, Crash) == s.(pc := Idle)
    ensures Enabled(policy, s, Strip) && s.current != Some(s.pc.read) ==> After(policy, s, Strip) == s.(pc := Idle)
  {
  }

  ghost predicate Init(s: State) {
    s == State(None, false, false, false, false, false, false, Idle)
  }

  ghost predicate Leads(policy: Policy, s: State, step: Step, t: State) {
    Enabled(policy, s, step) && t == After(policy, s, step)
  }

  ghost predicate Linked(policy: Policy, states: seq<State>, steps: seq<Step>) {
    && |states| == |steps| + 1
    && forall k :: 0 <= k < |steps| ==> Leads(policy, states[k], steps[k], states[k + 1])
  }

  ghost predicate Run(policy: Policy, states: seq<State>, steps: seq<Step>) {
    Linked(policy, states, steps) && Init(states[0])
  }

  // ------------------------------------------------------------------
  // Invariant
  // ------------------------------------------------------------------

  predicate Exposed(o: Option<Object>) {
    o.Some? ==> !o.value.finalizer
  }

  ghost predicate Inv(policy: Policy, s: State) {
    && (s.current.Some? && s.current.value.terminating ==> s.current.value.finalizer)
    && (s.done ==> s.ending && s.current.None?)
    && (!s.pc.Idle? ==> s.ending)
    && (s.synced ==> s.existed)
    && (Armed(s.current) ==> s.armed)
    && (s.current.Some? && s.current.value.finalizer ==> s.synced)
    && (s.current.Some? ==> s.existed)
    // With Retain, a pass deletes only what has lost the finalizer.
    && (policy.Retain? && s.pc.Checked? && !s.pc.read.finalizer ==> Exposed(s.current))
    && (policy.Retain? && s.pc.Deciding? ==> Exposed(s.current))
    // With Delete, only a purge takes the finalizer off.
    && (policy.DeleteData? && s.synced && s.stored ==> s.current.Some? && s.current.value.finalizer)
  }

  lemma StepKeepsInv(policy: Policy, s: State, step: Step)
    requires Inv(policy, s) && Enabled(policy, s, step)
    ensures Inv(policy, After(policy, s, step))
  {
  }

  lemma {:induction false} RunKeepsInv(policy: Policy, states: seq<State>, steps: seq<Step>, k: nat)
    requires Run(policy, states, steps) && k < |states|
    ensures Inv(policy, states[k])
  {
    if k > 0 {
      RunKeepsInv(policy, states, steps, k - 1);
      assert Leads(policy, states[k - 1], steps[k - 1], states[k]);
      StepKeepsInv(policy, states[k - 1], steps[k - 1]);
    }
  }

  // ------------------------------------------------------------------
  // Guarantees
  // ------------------------------------------------------------------

  /** What a single step can do to the facts the guarantees speak of. */
  lemma StepEffects(policy: Policy, s: State, step: Step, t: State)
    requires Inv(policy, s) && Leads(policy, s, step, t)
    ensures s.done ==> t.done
    ensures s.synced ==> t.synced
    ensures s.stored && !t.stored ==> step == OperatorPurges
    ensures policy.Retain? && t.armed && !s.armed ==>
      step == ForeignDelete && s.current.Some? && s.current.value.finalizer
  {
  }

  /** Someone other than the provider deleted the object while it still had the finalizer. */
  ghost predicate DeletedByOthers(states: seq<State>, steps: seq<Step>, j: nat) {
    j < |steps| < |states| && steps[j] == ForeignDelete && states[j].current.Some? && states[j].current.value.finalizer
  }

  lemma {:induction false} ArmedByOthers(states: seq<State>, steps: seq<Step>, k: nat) returns (j: nat)
    requires Run(Retain, states, steps) && k < |states| && states[k].armed
    ensures j < k && DeletedByOthers(states, steps, j)
  {
    RunKeepsInv(Retain, states, steps, k - 1);
    StepEffects(Retain, states[k - 1], steps[k - 1], states[k]);
    if states[k - 1].armed {
      j := ArmedByOthers(states, steps, k - 1);
    } else {
      j := k - 1;
    }
  }

  /**
   In every run, whatever crashes between finalizer removal and delete, the
   data of a Retain backup is purged only if someone else had deleted the
   object, under its finalizer, before.
   */
  lemma RetainedDataIsNeverPurged(states: seq<State>, steps: seq<Step>, k: nat) returns (j: nat)
    requires Run(Retain, states, steps) && k < |steps| && steps[k] == OperatorPurges
    ensures j < k && DeletedByOthers(states, steps, j)
  {
    assert Leads(Retain, states[k], steps[k], states[k + 1]);
    j := ArmedByOthers(states, steps, k);
  }

  /** The exception is real: data of a Retain backup lost to a deletion by others. */
  lemma DeletionByOthersPurges() returns (states: seq<State>, steps: seq<Step>)
    ensures Run(Retain, states, steps) && |steps| == 3
    ensures states[1].stored && DeletedByOthers(states, steps, 1) && steps[2] == OperatorPurges && !states[3].stored
  {
    var s0 := State(None, false, false, false, false, false, false, Idle);
    var s1 := After(Retain, s0, SyncBackup);
    var s2 := After(Retain, s1, ForeignDelete);
    states, steps := [s0, s1, s2, After(Retain, s2, OperatorPurges)], [SyncBackup, ForeignDelete, OperatorPurges];
  }

  /** In every run, done is reported only when the object is gone, and it never comes back. */
  lemma {:induction false} DoneMeansGone(policy: Policy, states: seq<State>, steps: seq<Step>, i: nat, k: nat)
    requires Run(policy, states, steps) && i <= k < |states| && states[i].done
    ensures states[k].done && states[k].current.None?
  {
    RunKeepsInv(policy, states, steps, k);
    if i < k {
      DoneMeansGone(policy, states, steps, i, k - 1);
      RunKeepsInv(policy, states, steps, k - 1);
      StepEffects(policy, states[k - 1], steps[k - 1], states[k]);
    }
  }

  lemma {:induction false} StoredUntilPurged(policy: Policy, states: seq<State>, steps: seq<Step>, i: nat, k: nat)
    returns (p: nat)
    requires Run(policy, states, steps) && i <= k < |states| && states[i].stored && !states[k].stored
    ensures i <= p < k && steps[p] == OperatorPurges
  {
    RunKeepsInv(policy, states, steps, k - 1);
    StepEffects(policy, states[k - 1], steps[k - 1], states[k]);
    if states[k - 1].stored {
      p := k - 1;
    } else {
      p := StoredUntilPurged(policy, states, steps, i, k - 1);
    }
  }

  /**
   In every run, a Delete backup whose data was stored while the object had the
   finalizer is reported done only after the operator purged that data, and
   nothing is left.
   */
  lemma DeletedDataIsPurgedBeforeDone(states: seq<State>, steps: seq<Step>, i: nat, k: nat) returns (p: nat)
    requires Run(DeleteData, states, steps) && i <= k < |states|
    requires states[i].current.Some? && states[i].current.value.finalizer && states[i].stored && states[k].done
    ensures !states[k].stored
    ensures i <= p < k && steps[p] == OperatorPurges
  {
    RunKeepsInv(DeleteData, states, steps, i);
    RunKeepsInv(DeleteData, states, steps, k);
    SyncedStays(states, steps, i, k);
    p := StoredUntilPurged(DeleteData, states, steps, i, k);
  }

  lemma {:induction false} SyncedStays(states: seq<State>, steps: seq<Step>, i: nat, k: nat)
    requires Run(DeleteData, states, steps) && i <= k < |states| && states[i].synced
    ensures states[k].synced
  {
    if i < k {
      SyncedStays(states, steps, i, k - 1);
      RunKeepsInv(DeleteData, states, steps, k - 1);
      StepEffects(DeleteData, states[k - 1], steps[k - 1], states[k]);
    }
  }

  // ------------------------------------------------------------------
  // Completion
  // ------------------------------------------------------------------

  /** A deletion that begins over a synced object can always complete, and leaves the data exactly with Retain. */
  lemma DeletionCompletes(policy: Policy, s: State) returns (states: seq<State>, steps: seq<Step>)
    requires Inv(policy, s) && s.pc.Idle? && s.current.Some? && s.current.value.finalizer && s.stored && !s.done
    requires !s.current.value.terminating
    ensures Linked(policy, states, steps) && states[0] == s
    ensures var t := states[|steps|]; t.done && t.current.None? && (t.stored <==> policy.Retain?)
  {
    var s1 := After(policy, s, BeginDeletion);
    var s2 := After(policy, s1, Get);
    var strip := if policy.Retain? then Strip else SkipStrip;
    var s3 := After(policy, s2, strip);
    var s4 := After(policy, s3, Delete);
    if policy.Retain? {
      states, steps := [s, s1, s2, s3, s4, After(policy, s4, Get)], [BeginDeletion, Get, strip, Delete, Get];
    } else {
      var s5 := After(policy, s4, OperatorPurges);
      var s6 := After(policy, s5, OperatorReleases);
      states := [s, s1, s2, s3, s4, s5, s6, After(policy, s6, Get)];
      steps := [BeginDeletion, Get, strip, Delete, OperatorPurges, OperatorReleases, Get];
    }
  }
}
