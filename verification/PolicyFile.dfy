/** The shared policy file of `policy_file.rs`: the overlay it carries, and the lock, temporary file and rename
    protocol between processes that may crash at any point.

    Rule lists and the watermark are opaque texts. The JSON encoding is a parameter. */
module PolicyFile {
  import opened Text

  // ---------------------------------------------------------------- the overlay

  datatype LocalPolicy = LocalPolicy(
    failClosed: bool, starPolicy: string, rules: seq<string>, maskRules: seq<string>, columnTags: seq<string>,
    highRiskRules: seq<string>, timeRules: seq<string>, watermark: string, defaultMaxRows: Option<nat>)

  datatype Streaming = Streaming(windowRows: nat, maxRows: Option<nat>, passthrough: bool, withHold: bool, maxBytes: Option<nat>)

  /** `rest` stands for the settings that are not shared: enabled, subject, decision backend, state. */
  datatype SecurityConfig = SecurityConfig(
    failClosed: bool, starPolicy: string, rules: seq<string>, maskRules: seq<string>, columnTags: seq<string>,
    highRiskRules: seq<string>, timeRules: seq<string>, watermark: string, streaming: Streaming, rest: seq<string>)

  function FromSecurity(c: SecurityConfig): LocalPolicy {
    LocalPolicy(c.failClosed, c.starPolicy, c.rules, c.maskRules, c.columnTags, c.highRiskRules, c.timeRules, c.watermark,
      c.streaming.maxRows)
  }

  /** The configuration with the shared fields taken from the policy. */
  function Overlay(p: LocalPolicy, c: SecurityConfig): SecurityConfig {
    SecurityConfig(p.failClosed, p.starPolicy, p.rules, p.maskRules, p.columnTags, p.highRiskRules, p.timeRules, p.watermark,
      c.streaming.(maxRows := p.defaultMaxRows), c.rest)
  }

  class Security {
    var config: SecurityConfig

    constructor (config: SecurityConfig)
      ensures this.config == config
    {
      this.config := config;
    }

    /** `apply_to`: the shared fields are overwritten one by one; reading them back gives the policy, and nothing
        else changes. */
    method ApplyPolicy(p: LocalPolicy)
      modifies this
      ensures config == Overlay(p, old(config))
      ensures FromSecurity(config) == p
      ensures config.rest == old(config).rest && config.streaming == old(config).streaming.(maxRows := config.streaming.maxRows)
    {
      config := config.(failClosed := p.failClosed);
      config := config.(starPolicy := p.starPolicy);
      config := config.(rules := p.rules);
      config := config.(maskRules := p.maskRules);
      config := config.(columnTags := p.columnTags);
      config := config.(highRiskRules := p.highRiskRules);
      config := config.(timeRules := p.timeRules);
      config := config.(watermark := p.watermark);
      config := config.(streaming := config.streaming.(maxRows := p.defaultMaxRows));
    }
  }

  /** The overlay is a lens: get-put, put-get and put-put. */
  lemma OverlayLaws(p: LocalPolicy, q: LocalPolicy, c: SecurityConfig)
    ensures Overlay(FromSecurity(c), c) == c
    ensures FromSecurity(Overlay(p, c)) == p
    ensures Overlay(p, Overlay(q, c)) == Overlay(p, c)
  {
  }

  /** Field by field: the policy carries the configuration's shared settings, and the overlay puts them back. */
  lemma SharedFieldsLaw(p: LocalPolicy, c: SecurityConfig)
    ensures var q := FromSecurity(c);
            q.failClosed == c.failClosed && q.starPolicy == c.starPolicy && q.rules == c.rules && q.maskRules == c.maskRules &&
            q.columnTags == c.columnTags && q.highRiskRules == c.highRiskRules && q.timeRules == c.timeRules &&
            q.watermark == c.watermark && q.defaultMaxRows == c.streaming.maxRows
    ensures var r := Overlay(p, c);
            r.failClosed == p.failClosed && r.starPolicy == p.starPolicy && r.rules == p.rules && r.maskRules == p.maskRules &&
            r.columnTags == p.columnTags && r.highRiskRules == p.highRiskRules && r.timeRules == p.timeRules &&
            r.watermark == p.watermark && r.streaming.maxRows == p.defaultMaxRows && r.rest == c.rest &&
            r.streaming.windowRows == c.streaming.windowRows && r.streaming.passthrough == c.streaming.passthrough &&
            r.streaming.withHold == c.streaming.withHold && r.streaming.maxBytes == c.streaming.maxBytes
  {
  }

  /** `merge_local_pdp_from_file`: overlay what the file holds, or seed the file from this configuration. */
  function MergeFromFile(policyPath: string, file: Option<LocalPolicy>, c: SecurityConfig): (SecurityConfig, Option<LocalPolicy>) {
    if Trim(policyPath) == "" then (c, file)
    else match file
      case Some(p) => (Overlay(p, c), file)
      case None => (c, Some(FromSecurity(c)))
  }

  /** Without a path nothing happens; an existing file overlays the configuration and stays; a missing one is written
      from the configuration, which stays. */
  lemma MergeFileLaw(policyPath: string, file: Option<LocalPolicy>, c: SecurityConfig)
    ensures var (d, f) := MergeFromFile(policyPath, file, c);
            (AllSpace(policyPath) ==> d == c && f == file) &&
            (!AllSpace(policyPath) && file.Some? ==> d == Overlay(file.value, c) && f == file) &&
            (!AllSpace(policyPath) && file.None? ==> d == c && f == Some(FromSecurity(c)))
  {
    hide Trim;
    BlankIs(policyPath);
  }

  lemma BlankIs(s: string)
    ensures Trim(s) == "" <==> AllSpace(s)
  {
    hide Trim;
    if AllSpace(s) {
      TrimOf(s, "", "");
      assert s + "" + "" == s;
    }
    if Trim(s) == "" {
      var lead, trail := TrimSplits(s);
    }
  }

  /** Whoever comes first, after both have merged the two processes share the same policy, which is what the file
      holds, and each keeps its own remaining settings. */
  lemma SiblingsAgree(policyPath: string, file: Option<LocalPolicy>, a: SecurityConfig, b: SecurityConfig)
    requires Trim(policyPath) != ""
    ensures var (a', f) := MergeFromFile(policyPath, file, a); var (b', g) := MergeFromFile(policyPath, f, b);
            FromSecurity(a') == FromSecurity(b') && g == f == Some(FromSecurity(a')) && (file.Some? ==> f == file) &&
            a' == Overlay(FromSecurity(a'), a) && b' == Overlay(FromSecurity(a'), b)
  {
  }

  // ---------------------------------------------------------------- the shared directory

  type Bytes = seq<nat>

  datatype Lock = Unlocked | Exclusive(owner: nat) | Shared(owners: set<nat>)

  /** Where a process is inside a save or a load. A save passes through the exclusive lock, the truncated
      temporary file, its bytes one chunk after another, the rename and the unlock; a load through the existence
      check, the shared lock and reads of any size. */
  datatype Process =
    | SaveWants(policy: LocalPolicy)
    | SaveLocked(policy: LocalPolicy)
    | Writing(policy: LocalPolicy, inode: nat, written: nat)
    | Renamed(policy: LocalPolicy)
    | LoadWants
    | LoadLocked
    | Reading(inode: nat, got: Bytes)
    | Loaded(raw: Option<Bytes>)

  /** Names point to inodes; `saved` collects every policy some saver passed in. */
  datatype System = System(
    target: Option<nat>, temp: Option<nat>, inodes: map<nat, Bytes>, unused: nat, lock: Lock,
    processes: map<nat, Process>, saved: set<LocalPolicy>)

  const START := System(None, None, map[], 0, Unlocked, map[], {})

  datatype Action =
    | BeginSave(policy: LocalPolicy)
    | BeginLoad
    | Advance(n: nat)
    | Crash

  function Release(lock: Lock, id: nat): Lock {
    match lock
    case Unlocked => Unlocked
    case Exclusive(owner) => if owner == id then Unlocked else lock
    case Shared(owners) => if owners - {id} == {} then Unlocked else Shared(owners - {id})
  }

  function Owners(lock: Lock): set<nat> { if lock.Shared? then lock.owners else {} }

  /** Opening the temporary file truncates an existing one or creates a new inode. */
  function OpenTemp(s: System, id: nat, p: LocalPolicy): System {
    if s.temp.Some? then
      s.(inodes := s.inodes[s.temp.value := []], processes := s.processes[id := Writing(p, s.temp.value, 0)])
    else
      s.(inodes := s.inodes[s.unused := []], temp := Some(s.unused), unused := s.unused + 1,
         processes := s.processes[id := Writing(p, s.unused, 0)])
  }

  function Min(a: nat, b: nat): nat { if a <= b then a else b }

  /** The next step of a process; a process that cannot move stays where it is. */
  function Advanced(s: System, id: nat, n: nat, enc: LocalPolicy -> Bytes): System
    requires id in s.processes
  {
    match s.processes[id]
    case SaveWants(p) =>
      if s.lock.Unlocked? then s.(lock := Exclusive(id), processes := s.processes[id := SaveLocked(p)]) else s
    case SaveLocked(p) => OpenTemp(s, id, p)
    case Writing(p, i, k) =>
      if k < |enc(p)| && i in s.inodes then
        var k' := Min(k + n, |enc(p)|);
        s.(inodes := s.inodes[i := s.inodes[i] + enc(p)[k..k']], processes := s.processes[id := Writing(p, i, k')])
      else s.(target := Some(i), temp := None, processes := s.processes[id := Renamed(p)])
    case Renamed(p) => s.(lock := Release(s.lock, id), processes := s.processes - {id})
    case LoadWants =>
      if s.lock.Exclusive? then s
      else s.(lock := Shared(Owners(s.lock) + {id}), processes := s.processes[id := LoadLocked])
    case LoadLocked =>
      if s.target.None? then s.(lock := Release(s.lock, id), processes := s.processes[id := Loaded(None)])
      else s.(processes := s.processes[id := Reading(s.target.value, [])])
    case Reading(i, got) =>
      if i in s.inodes && |got| < |s.inodes[i]| then
        var k' := Min(|got| + n, |s.inodes[i]|);
        s.(processes := s.processes[id := Reading(i, got + s.inodes[i][|got|..k'])])
      else s.(lock := Release(s.lock, id), processes := s.processes[id := Loaded(Some(got))])
    case Loaded(_) => s.(processes := s.processes - {id})
  }

  function Next(s: System, id: nat, a: Action, enc: LocalPolicy -> Bytes): System {
    match a
    case BeginSave(p) =>
      if id in s.processes then s else s.(processes := s.processes[id := SaveWants(p)], saved := s.saved + {p})
    case BeginLoad =>
      if id in s.processes then s
      else s.(processes := s.processes[id := if s.target.None? then Loaded(None) else LoadWants])
    case Advance(n) => if id in s.processes then Advanced(s, id, n, enc) else s
    case Crash => s.(lock := Release(s.lock, id), processes := s.processes - {id})
  }

  function Run(steps: seq<(nat, Action)>, enc: LocalPolicy -> Bytes): System {
    if steps == [] then START
    else Next(Run(steps[..|steps| - 1], enc), steps[|steps| - 1].0, steps[|steps| - 1].1, enc)
  }

  // ---------------------------------------------------------------- the invariant

  /** The bytes are one complete snapshot that some saver passed in. */
  ghost predicate Complete(raw: Bytes, saved: set<LocalPolicy>, enc: LocalPolicy -> Bytes) {
    exists p :: p in saved && raw == enc(p)
  }

  ghost predicate DiskOk(s: System, enc: LocalPolicy -> Bytes) {
    (s.target.Some? ==> s.target.value in s.inodes && Complete(s.inodes[s.target.value], s.saved, enc)) &&
    (s.temp.Some? ==> s.temp.value in s.inodes && s.temp != s.target) &&
    forall i :: i in s.inodes ==> i < s.unused
  }

  ghost predicate ProcessOk(s: System, id: nat, x: Process, enc: LocalPolicy -> Bytes) {
    match x
    case SaveWants(p) => p in s.saved
    case SaveLocked(p) => p in s.saved && s.lock == Exclusive(id)
    case Writing(p, i, k) =>
      p in s.saved && s.lock == Exclusive(id) && s.temp == Some(i) && i in s.inodes && k <= |enc(p)| && s.inodes[i] == enc(p)[..k]
    case Renamed(p) => s.lock == Exclusive(id)
    case LoadWants => s.target.Some?
    case LoadLocked => s.target.Some? && s.lock.Shared? && id in s.lock.owners
    case Reading(i, got) =>
      s.lock.Shared? && id in s.lock.owners && s.target == Some(i) && i in s.inodes && got <= s.inodes[i]
    case Loaded(raw) => raw.Some? ==> Complete(raw.value, s.saved, enc)
  }

  ghost predicate Inv(s: System, enc: LocalPolicy -> Bytes) {
    DiskOk(s, enc) && forall id :: id in s.processes ==> ProcessOk(s, id, s.processes[id], enc)
  }

  // ---------------------------------------------------------------- every step keeps it

  /** What the other processes rely on: the lock they hold is not taken away, and while they hold it the files
      they use stay the same. */
  ghost predicate Undisturbed(s: System, t: System, id: nat) {
    s.saved <= t.saved &&
    (s.lock.Exclusive? && s.lock.owner != id ==> t.lock == s.lock && t.temp == s.temp && t.inodes == s.inodes) &&
    (s.lock.Shared? ==> t.target == s.target && t.inodes == s.inodes && (s.lock.owners - {id} != {} ==>
      t.lock.Shared? && s.lock.owners - {id} <= t.lock.owners)) &&
    (s.target.Some? ==> t.target.Some?)
  }

  lemma OthersStayOk(s: System, t: System, id: nat, other: nat, x: Process, enc: LocalPolicy -> Bytes)
    requires ProcessOk(s, other, x, enc) && Undisturbed(s, t, id) && other != id
    ensures ProcessOk(t, other, x, enc)
  {
    if s.lock.Shared? && other in s.lock.owners {
      assert other in s.lock.owners - {id};
    }
    if x.Loaded? && x.raw.Some? {
      var p :| p in s.saved && x.raw.value == enc(p);
      assert p in t.saved;
    }
  }

  lemma ReleaseUndisturbs(s: System, id: nat, processes: map<nat, Process>)
    ensures Undisturbed(s, s.(lock := Release(s.lock, id), processes := processes), id)
  {
  }

  /** The invariant after a step of `id`, given that the step keeps the disk, does not disturb the others and
      leaves `id` itself in order. */
  lemma StepOk(s: System, t: System, id: nat, enc: LocalPolicy -> Bytes)
    requires Inv(s, enc) && DiskOk(t, enc) && Undisturbed(s, t, id)
    requires t.processes - {id} == s.processes - {id}
    requires id in t.processes ==> ProcessOk(t, id, t.processes[id], enc)
    ensures Inv(t, enc)
  {
    hide DiskOk, ProcessOk, Undisturbed;
    forall other | other in t.processes
      ensures ProcessOk(t, other, t.processes[other], enc)
    {
      if other != id {
        assert other in t.processes - {id};
        assert other in s.processes - {id} && s.processes[other] == t.processes[other];
        OthersStayOk(s, t, id, other, s.processes[other], enc);
      }
    }
  }

  lemma MoreSaved(raw: Bytes, saved: set<LocalPolicy>, p: LocalPolicy, enc: LocalPolicy -> Bytes)
    requires Complete(raw, saved, enc)
    ensures Complete(raw, saved + {p}, enc)
  {
    var q :| q in saved && raw == enc(q);
    assert q in saved + {p};
  }

  lemma BeginKeeps(s: System, id: nat, a: Action, enc: LocalPolicy -> Bytes)
    requires Inv(s, enc) && (a.BeginSave? || a.BeginLoad?)
    ensures Inv(Next(s, id, a, enc), enc)
  {
    if id !in s.processes {
      var t := Next(s, id, a, enc);
      if a.BeginSave? && s.target.Some? {
        MoreSaved(s.inodes[s.target.value], s.saved, a.policy, enc);
      }
      assert t.processes - {id} == s.processes - {id};
      hide Complete;
      StepOk(s, t, id, enc);
    }
  }

  lemma CrashKeeps(s: System, id: nat, enc: LocalPolicy -> Bytes)
    requires Inv(s, enc)
    ensures Inv(Next(s, id, Crash, enc), enc)
  {
    hide Complete, ProcessOk;
    var t := Next(s, id, Crash, enc);
    ReleaseUndisturbs(s, id, s.processes - {id});
    assert t.processes - {id} == s.processes - {id};
    StepOk(s, t, id, enc);
  }

  lemma LockKeeps(s: System, id: nat, n: nat, enc: LocalPolicy -> Bytes)
    requires Inv(s, enc) && id in s.processes && (s.processes[id].SaveWants? || s.processes[id].LoadWants?)
    ensures Inv(Advanced(s, id, n, enc), enc)
  {
    hide Complete;
    assert ProcessOk(s, id, s.processes[id], enc);
    var t := Advanced(s, id, n, enc);
    if t != s {
      assert t.processes - {id} == s.processes - {id};
      StepOk(s, t, id, enc);
    }
  }

  lemma OpenTempKeeps(s: System, id: nat, n: nat, enc: LocalPolicy -> Bytes)
    requires Inv(s, enc) && id in s.processes && s.processes[id].SaveLocked?
    ensures Inv(Advanced(s, id, n, enc), enc)
  {
    hide Complete;
    assert ProcessOk(s, id, s.processes[id], enc);
    var t := Advanced(s, id, n, enc);
    assert t.processes - {id} == s.processes - {id};
    StepOk(s, t, id, enc);
  }

  lemma WriteKeeps(s: System, id: nat, n: nat, enc: LocalPolicy -> Bytes)
    requires Inv(s, enc) && id in s.processes && s.processes[id].Writing?
    ensures Inv(Advanced(s, id, n, enc), enc)
  {
    var x := s.processes[id];
    assert ProcessOk(s, id, x, enc);
    var t := Advanced(s, id, n, enc);
    assert t.processes - {id} == s.processes - {id};
    var data := enc(x.policy);
    if x.written < |data| {
      var k' := Min(x.written + n, |data|);
      assert data[..x.written] + data[x.written..k'] == data[..k'];
    } else {
      assert data[..x.written] == data;
      assert Complete(s.inodes[x.inode], s.saved, enc);
    }
    hide Complete;
    StepOk(s, t, id, enc);
  }

  lemma LoadKeeps(s: System, id: nat, n: nat, enc: LocalPolicy -> Bytes)
    requires Inv(s, enc) && id in s.processes
    requires s.processes[id].LoadLocked? || s.processes[id].Reading?
    ensures Inv(Advanced(s, id, n, enc), enc)
  {
    hide Complete;
    var x := s.processes[id];
    assert ProcessOk(s, id, x, enc);
    var t := Advanced(s, id, n, enc);
    assert t.processes - {id} == s.processes - {id};
    ReleaseUndisturbs(s, id, t.processes);
    if x.Reading? && |x.got| < |s.inodes[x.inode]| {
      var raw := s.inodes[x.inode];
      assert x.got + raw[|x.got|..Min(|x.got| + n, |raw|)] <= raw;
    } else if x.Reading? {
      assert x.got == s.inodes[x.inode];
    }
    StepOk(s, t, id, enc);
  }

  lemma DoneKeeps(s: System, id: nat, n: nat, enc: LocalPolicy -> Bytes)
    requires Inv(s, enc) && id in s.processes && (s.processes[id].Renamed? || s.processes[id].Loaded?)
    ensures Inv(Advanced(s, id, n, enc), enc)
  {
    hide Complete;
    var t := Advanced(s, id, n, enc);
    assert t.processes - {id} == s.processes - {id};
    ReleaseUndisturbs(s, id, t.processes);
    StepOk(s, t, id, enc);
  }

  lemma NextKeeps(s: System, id: nat, a: Action, enc: LocalPolicy -> Bytes)
    requires Inv(s, enc)
    ensures Inv(Next(s, id, a, enc), enc)
  {
    hide Inv, Advanced;
    match a
    case BeginSave(_) => BeginKeeps(s, id, a, enc);
    case BeginLoad => BeginKeeps(s, id, a, enc);
    case Crash => CrashKeeps(s, id, enc);
    case Advance(n) =>
      if id in s.processes {
        match s.processes[id]
        case SaveWants(_) => LockKeeps(s, id, n, enc);
        case LoadWants => LockKeeps(s, id, n, enc);
        case SaveLocked(_) => OpenTempKeeps(s, id, n, enc);
        case Writing(_, _, _) => WriteKeeps(s, id, n, enc);
        case LoadLocked => LoadKeeps(s, id, n, enc);
        case Reading(_, _) => LoadKeeps(s, id, n, enc);
        case Renamed(_) => DoneKeeps(s, id, n, enc);
        case Loaded(_) => DoneKeeps(s, id, n, enc);
      }
  }

  lemma {:induction false} RunKeeps(steps: seq<(nat, Action)>, enc: LocalPolicy -> Bytes)
    ensures Inv(Run(steps, enc), enc)
  {
    if steps != [] {
      RunKeeps(steps[..|steps| - 1], enc);
      NextKeeps(Run(steps[..|steps| - 1], enc), steps[|steps| - 1].0, steps[|steps| - 1].1, enc);
    }
  }

  /** Decoding undoes encoding. */
  ghost predicate RoundTrips(enc: LocalPolicy -> Bytes, dec: Bytes -> Option<LocalPolicy>) {
    forall p :: dec(enc(p)) == Some(p)
  }

  /** Crash-atomic sharing: for every interleaving of saves, loads and crashes, with files written and read chunk by
      chunk, a finished load found nothing or decodes to exactly one policy that some saver passed in; and the file
      itself, if there is one, is such a policy at every moment. */
  lemma LoadsAreWhole(steps: seq<(nat, Action)>, enc: LocalPolicy -> Bytes, dec: Bytes -> Option<LocalPolicy>, id: nat)
    requires RoundTrips(enc, dec)
    ensures var s := Run(steps, enc);
            (s.target.Some? ==> s.target.value in s.inodes && dec(s.inodes[s.target.value]).Some? &&
                                dec(s.inodes[s.target.value]).value in s.saved) &&
            (id in s.processes && s.processes[id].Loaded? && s.processes[id].raw.Some? ==>
              dec(s.processes[id].raw.value).Some? && dec(s.processes[id].raw.value).value in s.saved)
  {
    RunKeeps(steps, enc);
    var s := Run(steps, enc);
    hide Run;
    if id in s.processes {
      assert ProcessOk(s, id, s.processes[id], enc);
    }
  }

  // ---------------------------------------------------------------- undisturbed processes

  /** A save up to its temporary file: locked, empty, nothing written yet. */
  lemma SaveOpensTemp(s: System, id: nat, p: LocalPolicy, n: nat, enc: LocalPolicy -> Bytes) returns (i: nat)
    requires Inv(s, enc) && s.lock.Unlocked? && id !in s.processes
    ensures var t := Next(Next(Next(s, id, BeginSave(p), enc), id, Advance(n), enc), id, Advance(n), enc);
            id in t.processes && t.processes[id] == Writing(p, i, 0) && t.processes - {id} == s.processes &&
            i in t.inodes && t.inodes[i] == [] && t.lock == Exclusive(id) && t.saved == s.saved + {p}
  {
    var s1 := Next(s, id, BeginSave(p), enc);
    assert s1.processes[id] == SaveWants(p);
    var locked := Next(s1, id, Advance(n), enc);
    assert locked.processes[id] == SaveLocked(p) && locked.lock == Exclusive(id);
    var t := Next(locked, id, Advance(n), enc);
    i := t.processes[id].inode;
    assert t.processes - {id} == s.processes;
  }

  /** From there: write everything, rename, unlock. */
  lemma SaveFinishes(s: System, id: nat, p: LocalPolicy, i: nat, enc: LocalPolicy -> Bytes)
    requires id in s.processes && s.processes[id] == Writing(p, i, 0) && i in s.inodes && s.inodes[i] == []
    requires s.lock == Exclusive(id) && enc(p) != []
    ensures var n := |enc(p)|;
            var t := Next(Next(Next(s, id, Advance(n), enc), id, Advance(n), enc), id, Advance(n), enc);
            t.target == Some(i) && i in t.inodes && t.inodes[i] == enc(p) && t.temp.None? && t.lock.Unlocked? &&
            t.processes == s.processes - {id} && t.saved == s.saved
  {
    var n := |enc(p)|;
    var wrote := Next(s, id, Advance(n), enc);
    assert [] + enc(p)[0..n] == enc(p);
    assert wrote.processes[id] == Writing(p, i, n) && wrote.inodes[i] == enc(p);
    var renamed := Next(wrote, id, Advance(n), enc);
    assert renamed.processes[id] == Renamed(p) && renamed.target == Some(i);
    assert Next(renamed, id, Advance(n), enc).processes == s.processes - {id};
  }

  /** A save that nothing disturbs replaces the file by the whole policy and leaves no lock and no temporary file. */
  lemma UndisturbedSave(s: System, id: nat, p: LocalPolicy, enc: LocalPolicy -> Bytes)
    requires Inv(s, enc) && s.lock.Unlocked? && id !in s.processes && enc(p) != []
    ensures var n := |enc(p)|;
            var s1 := Next(Next(Next(s, id, BeginSave(p), enc), id, Advance(n), enc), id, Advance(n), enc);
            var t := Next(Next(Next(s1, id, Advance(n), enc), id, Advance(n), enc), id, Advance(n), enc);
            t.target.Some? && t.target.value in t.inodes && t.inodes[t.target.value] == enc(p) && t.temp.None? &&
            t.lock.Unlocked? && t.processes == s.processes && t.saved == s.saved + {p}
  {
    hide Next, Inv;
    var n := |enc(p)|;
    var i := SaveOpensTemp(s, id, p, n, enc);
    SaveFinishes(Next(Next(Next(s, id, BeginSave(p), enc), id, Advance(n), enc), id, Advance(n), enc), id, p, i, enc);
  }

  /** A load that nothing disturbs finds the bytes of the file, or nothing if there is none. */
  lemma UndisturbedLoad(s: System, id: nat, enc: LocalPolicy -> Bytes)
    requires Inv(s, enc) && s.lock.Unlocked? && id !in s.processes
    ensures s.target.None? ==> Next(s, id, BeginLoad, enc) == s.(processes := s.processes[id := Loaded(None)])
    ensures s.target.Some? && s.inodes[s.target.value] != [] ==>
            var n := |s.inodes[s.target.value]|;
            var s1 := Next(s, id, BeginLoad, enc);
            var s2 := Next(Next(s1, id, Advance(n), enc), id, Advance(n), enc);
            var t := Next(Next(s2, id, Advance(n), enc), id, Advance(n), enc);
            t == s.(processes := s.processes[id := Loaded(Some(s.inodes[s.target.value]))])
  {
    if s.target.Some? && s.inodes[s.target.value] != [] {
      var raw := s.inodes[s.target.value];
      var n := |raw|;
      var s1 := Next(s, id, BeginLoad, enc);
      var locked := Next(s1, id, Advance(n), enc);
      assert locked.processes[id] == LoadLocked && locked.lock == Shared({id});
      var temp := Next(locked, id, Advance(n), enc);
      assert temp.processes[id] == Reading(s.target.value, []);
      var got := Next(temp, id, Advance(n), enc);
      assert [] + raw[0..n] == raw;
      assert got.processes[id] == Reading(s.target.value, raw);
      var t := Next(got, id, Advance(n), enc);
      assert t.processes == s.processes[id := Loaded(Some(raw))];
    }
  }
}
