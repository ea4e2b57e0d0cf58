/** The epoch'd policy store of `cedar_pdp.rs`, with concurrent reloads and readers.

    The policy engine is a function of the policy text and the request. A reload loads its snapshot first, then
    takes the write lock, compares fingerprints, swaps, bumps the epoch and unlocks, each its own step. A reader
    takes the read lock, so it never runs while a writer holds the lock; the epoch is read without any lock. */
module CedarStore {
  import opened Text

  datatype Snapshot = Snapshot(policies: string, source: string, files: nat, policyCount: nat, loadedAt: nat, fingerprint: nat)

  const EMPTY := Snapshot("", "", 0, 0, 0, 0)

  /** The new snapshot's content counts as unchanged. */
  predicate Same(current: Snapshot, next: Snapshot) { current.files > 0 && current.fingerprint == next.fingerprint }

  // ---------------------------------------------------------------- the store object

  datatype Load = Loaded(next: Snapshot) | LoadError(message: string)

  datatype ReloadInfo = ReloadInfo(epoch: nat, source: string, files: nat, policyCount: nat, loadedAt: nat, swapped: bool)

  datatype Reload = Reloaded(info: ReloadInfo) | Kept(epoch: nat, message: string) | Failed(message: string)

  class Store {
    var snap: Snapshot
    var epoch: nat
    ghost var installed: seq<Snapshot>

    /** The epoch is the number of swaps, and the snapshot is the last one installed. */
    ghost predicate Valid()
      reads this
    {
      |installed| == epoch + 1 && installed[0] == EMPTY && snap == installed[epoch]
    }

    /** The store as a state of the step system, nobody holding the lock. */
    ghost function State(): System
      reads this
    {
      System(snap, epoch, Free, installed)
    }

    constructor ()
      ensures Valid() && epoch == 0
    {
      snap, epoch, installed := EMPTY, 0, [EMPTY];
    }

    /** `reload_from_dir` and `reload_from_str` undisturbed: a failed load or an unchanged fingerprint changes
        nothing; anything else swaps and advances the epoch by one. */
    method ReloadFrom(load: Load) returns (r: Reload)
      requires Valid()
      modifies this
      ensures Valid()
      ensures var swaps := load.Loaded? && !(old(snap).files > 0 && old(snap).fingerprint == load.next.fingerprint);
              snap == (if swaps then load.next else old(snap)) && epoch == old(epoch) + (if swaps then 1 else 0) &&
              installed == old(installed) + (if swaps then [load.next] else [])
      ensures State() == AfterReload(old(State()), load)
      ensures load.Loaded? ==> r == Reloaded(ReloadInfo(epoch, snap.source, snap.files, snap.policyCount, snap.loadedAt, epoch != old(epoch)))
      ensures load.LoadError? ==> r == if snap.files > 0 && snap.source != "" then Kept(epoch, load.message) else Failed(load.message)
    {
      match load
      case Loaded(next) =>
        if snap.files > 0 && snap.fingerprint == next.fingerprint {
          return Reloaded(ReloadInfo(epoch, snap.source, snap.files, snap.policyCount, snap.loadedAt, false));
        }
        snap := next;
        installed := installed + [next];
        epoch := epoch + 1;
        return Reloaded(ReloadInfo(epoch, snap.source, snap.files, snap.policyCount, snap.loadedAt, true));
      case LoadError(message) =>
        if snap.files > 0 && snap.source != "" {
          return Kept(epoch, message);
        }
        return Failed(message);
    }
  }

  // ---------------------------------------------------------------- the interleaved system

  datatype Phase = Free | Holding(next: Snapshot) | Swapped | Bumped

  /** `installed` lists every snapshot that was ever in place. */
  datatype System = System(snap: Snapshot, epoch: nat, phase: Phase, installed: seq<Snapshot>)

  const START := System(EMPTY, 0, Free, [EMPTY])

  datatype Step = Lock(next: Snapshot) | Decide | Bump | Unlock | LoadFails

  predicate Enabled(s: System, step: Step) {
    match step
    case Lock(_) => s.phase.Free?
    case Decide => s.phase.Holding?
    case Bump => s.phase.Swapped?
    case Unlock => s.phase.Bumped?
    case LoadFails => true
  }

  function Next(s: System, step: Step): System {
    if !Enabled(s, step) then s
    else match step
      case Lock(next) => s.(phase := Holding(next))
      case Decide =>
        var next := s.phase.next;
        if Same(s.snap, next) then s.(phase := Free)
        else s.(snap := next, installed := s.installed + [next], phase := Swapped)
      case Bump => s.(epoch := s.epoch + 1, phase := Bumped)
      case Unlock => s.(phase := Free)
      case LoadFails => s
  }

  /** A reload as a whole. */
  function AfterReload(s: System, load: Load): System {
    if load.LoadError? || Same(s.snap, load.next) then s
    else s.(snap := load.next, epoch := s.epoch + 1, installed := s.installed + [load.next])
  }

  /** A reload changes nothing exactly when it fails to load, or loads the fingerprint of a snapshot that has files;
      otherwise the loaded snapshot takes over with the next epoch. */
  lemma ReloadLaw(s: System, load: Load)
    ensures var t := AfterReload(s, load);
            (load.LoadError? ==> t == s) &&
            (load.Loaded? && s.snap.files > 0 && s.snap.fingerprint == load.next.fingerprint ==> t == s) &&
            (load.Loaded? && (s.snap.files == 0 || s.snap.fingerprint != load.next.fingerprint) ==>
              t.snap == load.next && t.epoch == s.epoch + 1 && t.installed == s.installed + [load.next] && t.phase == s.phase)
  {
  }

  /** A reload that nothing interrupts, step by step, is the reload as a whole. */
  lemma UndisturbedReload(s: System, next: Snapshot, message: string)
    requires LockFree(s)
    ensures Next(Next(Next(Next(s, Lock(next)), Decide), Bump), Unlock) == AfterReload(s, Loaded(next))
    ensures Next(s, LoadFails) == AfterReload(s, LoadError(message))
  {
    var decided := Next(Next(s, Lock(next)), Decide);
    if Same(s.snap, next) {
      assert decided == s && Next(s, Bump) == s;
    } else {
      assert Next(Next(decided, Bump), Unlock) == decided.(epoch := s.epoch + 1, phase := Free);
    }
  }

  function Run(steps: seq<Step>): System {
    if steps == [] then START else Next(Run(steps[..|steps| - 1]), steps[|steps| - 1])
  }

  function At(steps: seq<Step>, i: nat): System
    requires i <= |steps|
  {
    Run(steps[..i])
  }

  /** A reader may run: no writer holds the lock. */
  predicate LockFree(s: System) { s.phase.Free? }

  predicate Inv(s: System) {
    s.installed != [] && s.installed[0] == EMPTY && s.snap == s.installed[|s.installed| - 1] &&
    |s.installed| == s.epoch + 1 + if s.phase.Swapped? then 1 else 0
  }

  /** In every reachable state the epoch is the number of swaps, except between a swap and its bump, which happen
      under the write lock; and the snapshot is the last one installed. */
  lemma {:induction false} EpochCountsSwaps(steps: seq<Step>)
    ensures Inv(Run(steps))
  {
    if steps != [] {
      EpochCountsSwaps(steps[..|steps| - 1]);
    }
  }

  lemma StepGrows(s: System, step: Step)
    ensures s.epoch <= Next(s, step).epoch && s.installed <= Next(s, step).installed
  {
  }

  lemma {:induction false} RunGrows(steps: seq<Step>, i: nat, j: nat)
    requires i <= j <= |steps|
    ensures At(steps, i).epoch <= At(steps, j).epoch && At(steps, i).installed <= At(steps, j).installed
    decreases j
  {
    if i < j {
      RunGrows(steps, i, j - 1);
      assert steps[..j][..j - 1] == steps[..j - 1];
      StepGrows(At(steps, j - 1), steps[j - 1]);
    }
  }

  /** The snapshot of epoch `n`. */
  predicate IsVersion(s: System, n: nat, snap: Snapshot) { n < |s.installed| && s.installed[n] == snap }

  /** A failed load, and a reload whose fingerprint matches the snapshot it finds, leave snapshot, epoch and
      history as they were. */
  lemma UnchangedReload(s: System, next: Snapshot)
    requires LockFree(s)
    ensures Next(s, LoadFails) == s
    ensures Same(s.snap, next) <==> Next(Next(s, Lock(next)), Decide) == s
  {
    var t := Next(Next(s, Lock(next)), Decide);
    assert Same(s.snap, next) || |t.installed| == |s.installed| + 1;
  }

  /** `status`: the epoch it reads after the snapshot is never older than that snapshot's. */
  lemma StatusEpochNotOlder(steps: seq<Step>, r: nat, e: nat)
    requires r <= e <= |steps| && LockFree(At(steps, r))
    ensures At(steps, e).epoch >= At(steps, r).epoch
    ensures IsVersion(At(steps, e), At(steps, r).epoch, At(steps, r).snap)
  {
    EpochCountsSwaps(steps[..r]);
    RunGrows(steps, r, e);
  }

  /** If the epoch is the same before and after, every read in between saw the same snapshot. */
  lemma SameEpochSameSnapshot(steps: seq<Step>, i: nat, r: nat, r': nat, j: nat)
    requires i <= r <= r' <= j <= |steps| && LockFree(At(steps, r)) && LockFree(At(steps, r'))
    requires At(steps, i).epoch == At(steps, j).epoch
    ensures At(steps, r).snap == At(steps, r').snap
    ensures IsVersion(At(steps, r), At(steps, i).epoch, At(steps, r).snap)
  {
    EpochCountsSwaps(steps[..r]);
    EpochCountsSwaps(steps[..r']);
    RunGrows(steps, i, r);
    RunGrows(steps, r, r');
    RunGrows(steps, r', j);
  }

  // ---------------------------------------------------------------- authorising a list of tables

  datatype Verdict = Allowed | Denied(table: string) | NoPolicies

  /** What one snapshot says about one table; `allow` is the policy engine. */
  function JudgeOne(snap: Snapshot, table: string, allow: (string, string) -> bool): Verdict {
    if snap.files == 0 then NoPolicies else if allow(snap.policies, table) then Allowed else Denied(table)
  }

  /** The empty object set is judged as one resource. */
  function Resources(tables: seq<string>): (r: seq<string>)
    ensures r != [] && (tables != [] ==> r == tables) && (tables == [] ==> r == ["__none__"])
  {
    if tables == [] then ["__none__"] else tables
  }

  /** The verdict when one snapshot judges every resource. */
  predicate AllAllowed(snap: Snapshot, tables: seq<string>, allow: (string, string) -> bool) {
    snap.files > 0 && forall k :: 0 <= k < |Resources(tables)| ==> allow(snap.policies, Resources(tables)[k])
  }

  /** `authorize_tables_with_attrs`: the loop with early return; `seen[k]` is the snapshot found at the k-th read. */
  method AuthorizeTables(seen: seq<Snapshot>, tables: seq<string>, allow: (string, string) -> bool) returns (v: Verdict)
    requires |seen| == |Resources(tables)|
    ensures v == Allowed <==> forall k :: 0 <= k < |seen| ==> JudgeOne(seen[k], Resources(tables)[k], allow) == Allowed
    ensures v != Allowed ==> exists k :: 0 <= k < |seen| && v == JudgeOne(seen[k], Resources(tables)[k], allow) &&
                                         forall i :: 0 <= i < k ==> JudgeOne(seen[i], Resources(tables)[i], allow) == Allowed
  {
    var all := Resources(tables);
    var k := 0;
    while k < |all|
      invariant 0 <= k <= |all|
      invariant forall i :: 0 <= i < k ==> JudgeOne(seen[i], all[i], allow) == Allowed
    {
      v := JudgeOne(seen[k], all[k], allow);
      if v != Allowed {
        return;
      }
      k := k + 1;
    }
    v := Allowed;
  }

  /** The reads of one authorisation: at positions between the two epoch reads, each with the lock free. */
  predicate ReadsDuring(steps: seq<Step>, i: nat, j: nat, positions: seq<nat>) {
    i <= j <= |steps| && (forall k :: 0 <= k < |positions| ==> i <= positions[k] <= j && LockFree(At(steps, positions[k])))
  }

  /** Equal epochs before and after an authorisation mean one snapshot judged every table: the tables are allowed
      exactly when the snapshot of that epoch allows them all. */
  lemma EqualEpochsOneSnapshot(steps: seq<Step>, i: nat, j: nat, positions: seq<nat>, tables: seq<string>, allow: (string, string) -> bool)
    requires ReadsDuring(steps, i, j, positions) && |positions| == |Resources(tables)|
    requires At(steps, i).epoch == At(steps, j).epoch
    ensures var snap := At(steps, positions[0]).snap;
            IsVersion(At(steps, j), At(steps, i).epoch, snap) &&
            (forall k :: 0 <= k < |positions| ==> At(steps, positions[k]).snap == snap) &&
            ((forall k :: 0 <= k < |positions| ==> JudgeOne(At(steps, positions[k]).snap, Resources(tables)[k], allow) == Allowed)
             <==> AllAllowed(snap, tables, allow))
  {
    hide Run, At;
    forall k | 0 <= k < |positions|
      ensures IsVersion(At(steps, j), At(steps, i).epoch, At(steps, positions[k]).snap)
    {
      SameEpochSameSnapshot(steps, i, positions[k], positions[k], j);
      SnapshotStays(steps, positions[k], j, At(steps, i).epoch);
    }
  }

  lemma SnapshotStays(steps: seq<Step>, r: nat, j: nat, n: nat)
    requires r <= j <= |steps| && n < |At(steps, r).installed|
    ensures n < |At(steps, j).installed| && At(steps, j).installed[n] == At(steps, r).installed[n]
  {
    RunGrows(steps, r, j);
  }

  /** What one snapshot says about one table: without policy files nothing is decided, otherwise the engine is asked
      about this table under these policies. */
  lemma JudgeLaw(snap: Snapshot, table: string, allow: (string, string) -> bool)
    ensures var v := JudgeOne(snap, table, allow);
            (v == NoPolicies <==> snap.files == 0) && (v == Allowed <==> snap.files > 0 && allow(snap.policies, table)) &&
            (v == Denied(table) <==> snap.files > 0 && !allow(snap.policies, table))
  {
  }

  /** A new store has no policy files: nothing is decided, and whatever is loaded first takes over as epoch one. */
  lemma FreshStoreLaw(table: string, allow: (string, string) -> bool, next: Snapshot)
    ensures JudgeOne(START.snap, table, allow) == NoPolicies && START.epoch == 0 && START.snap == EMPTY
    ensures AfterReload(START, Loaded(next)).snap == next && AfterReload(START, Loaded(next)).epoch == 1
  {
  }
}
