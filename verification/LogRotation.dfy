/** The rotating JSONL sink of `audit_pipeline.rs`: append with size rotation, and age and keep-N pruning.

    A line is its bytes; a file is its lines and its modification time in milliseconds. */
module LogRotation {
  import opened Text

  type Line = string

  datatype Path = Path(dir: string, name: string)

  datatype File = File(lines: seq<Line>, mtime: nat)

  type Disk = map<Path, File>

  datatype Policy = Policy(maxFileBytes: nat, retainDays: nat, rotateKeep: nat, archiveDir: Option<string>)

  function Size(lines: seq<Line>): nat {
    if lines == [] then 0 else Size(lines[..|lines| - 1]) + |lines[|lines| - 1]| + 1
  }

  function LinesOf(d: Disk, p: Path): seq<Line> { if p in d then d[p].lines else [] }

  function DestDir(active: Path, archiveDir: Option<string>): string {
    if archiveDir.Some? then archiveDir.value else active.dir
  }

  // ---------------------------------------------------------------- append and rotate

  function RotatedPath(active: Path, archiveDir: Option<string>, ts: nat): Path {
    Path(DestDir(active, archiveDir), active.name + "." + Decimal(ts))
  }

  /** `rotate_active_file`: a rename, which replaces whatever the target name held. */
  function Rotate(d: Disk, active: Path, archiveDir: Option<string>, ts: nat): Disk {
    if active !in d then d else (d - {active})[RotatedPath(active, archiveDir, ts) := d[active]]
  }

  predicate MustRotate(d: Disk, active: Path, policy: Policy) {
    policy.maxFileBytes > 0 && active in d && Size(d[active].lines) >= policy.maxFileBytes
  }

  function BeforeWrite(d: Disk, active: Path, policy: Policy, ts: nat): Disk {
    if MustRotate(d, active, policy) then Rotate(d, active, policy.archiveDir, ts) else d
  }

  function Append(d: Disk, active: Path, policy: Policy, line: Line, ts: nat, mtime: nat): Disk {
    var e := BeforeWrite(d, active, policy, ts);
    e[active := File(LinesOf(e, active) + [line], mtime)]
  }

  // ---------------------------------------------------------------- prune

  predicate AllDigits(s: string) { s != "" && forall i :: 0 <= i < |s| ==> IsDigit(s[i]) }

  /** The name is the active file's name, a dot and digits. */
  predicate IsRotatedName(prefix: string, name: string) {
    |prefix| + 1 < |name| && name[..|prefix|] == prefix && name[|prefix|] == '.' && AllDigits(name[|prefix| + 1..])
  }

  predicate IsCandidate(active: Path, dir: string, p: Path) {
    p.dir == dir && p != active && IsRotatedName(active.name, p.name)
  }

  /** What `read_dir` may return: every entry of the directory once, in any order. */
  ghost predicate IsListing(listing: seq<Path>, d: Disk, dir: string) {
    (forall i, j :: 0 <= i < j < |listing| ==> listing[i] != listing[j]) &&
    forall p :: p in listing <==> p in d && p.dir == dir
  }

  function Candidates(listing: seq<Path>, active: Path, dir: string): seq<Path> {
    if listing == [] then []
    else
      var rest := Candidates(listing[..|listing| - 1], active, dir);
      if IsCandidate(active, dir, listing[|listing| - 1]) then rest + [listing[|listing| - 1]] else rest
  }

  function Mtime(d: Disk, p: Path): nat { if p in d then d[p].mtime else 0 }

  /** Stable insertion: after every path that is not newer. */
  function InsertByMtime(d: Disk, sorted: seq<Path>, p: Path): seq<Path> {
    if sorted == [] || Mtime(d, sorted[|sorted| - 1]) <= Mtime(d, p) then sorted + [p]
    else InsertByMtime(d, sorted[..|sorted| - 1], p) + [sorted[|sorted| - 1]]
  }

  function SortByMtime(d: Disk, s: seq<Path>): seq<Path> {
    if s == [] then [] else InsertByMtime(d, SortByMtime(d, s[..|s| - 1]), s[|s| - 1])
  }

  predicate IsOld(d: Disk, p: Path, policy: Policy, now: nat) {
    policy.retainDays > 0 && now > Mtime(d, p) + policy.retainDays * 86_400_000
  }

  function Retained(d: Disk, s: seq<Path>, policy: Policy, now: nat): seq<Path> {
    if s == [] then []
    else
      var rest := Retained(d, s[..|s| - 1], policy, now);
      if IsOld(d, s[|s| - 1], policy, now) then rest else rest + [s[|s| - 1]]
  }

  function Excess(n: nat, policy: Policy): (r: nat)
    ensures r <= n
  {
    if policy.rotateKeep > 0 && n > policy.rotateKeep then n - policy.rotateKeep else 0
  }

  function Aged(d: Disk, s: seq<Path>, policy: Policy, now: nat): set<Path> {
    set p | p in s && IsOld(d, p, policy, now)
  }

  function Members(s: seq<Path>): set<Path> { set p | p in s }

  /** The files a prune removes: the aged ones, then the oldest beyond the number to keep. */
  function Doomed(d: Disk, sorted: seq<Path>, policy: Policy, now: nat): set<Path> {
    var kept := Retained(d, sorted, policy, now);
    var n := Excess(|kept|, policy);
    Aged(d, sorted, policy, now) + Members(kept[..n])
  }

  function Prune(d: Disk, active: Path, policy: Policy, listing: seq<Path>, now: nat): Disk {
    var dir := DestDir(active, policy.archiveDir);
    d - Doomed(d, SortByMtime(d, Candidates(listing, active, dir)), policy, now)
  }

  lemma AgedSnoc(d: Disk, s: seq<Path>, p: Path, policy: Policy, now: nat)
    ensures Aged(d, s + [p], policy, now) == Aged(d, s, policy, now) + if IsOld(d, p, policy, now) then {p} else {}
    ensures Retained(d, s + [p], policy, now) == Retained(d, s, policy, now) + if IsOld(d, p, policy, now) then [] else [p]
  {
    hide IsOld;
    assert (s + [p])[..|s|] == s;
  }

  lemma NoneAged(d: Disk, policy: Policy, now: nat)
    ensures Retained(d, [], policy, now) == [] && d - Aged(d, [], policy, now) == d
  {
    assert Aged(d, [], policy, now) == {};
  }

  lemma NoMembers(d: Disk)
    ensures d - Members([]) == d
  {
    assert Members([]) == {};
  }

  lemma MembersSnoc(s: seq<Path>, p: Path)
    ensures Members(s + [p]) == Members(s) + {p}
  {
  }

  lemma RemoveBoth(d: Disk, x: set<Path>, y: set<Path>)
    ensures d - x - y == d - (x + y)
  {
  }

  // ---------------------------------------------------------------- the sink object

  class Sink {
    const active: Path
    var disk: Disk
    var rotated: nat
    var pruned: nat

    constructor (active: Path, disk: Disk)
      ensures this.active == active && this.disk == disk && rotated == 0 && pruned == 0
    {
      this.active, this.disk, rotated, pruned := active, disk, 0, 0;
    }

    /** `append_jsonl_with_rotate` */
    method AppendLine(policy: Policy, line: Line, ts: nat, mtime: nat)
      modifies `disk, `rotated
      ensures disk == Append(old(disk), active, policy, line, ts, mtime)
      ensures rotated == old(rotated) + if MustRotate(old(disk), active, policy) then 1 else 0
    {
      if policy.maxFileBytes > 0 && active in disk && Size(disk[active].lines) >= policy.maxFileBytes {
        var dest := RotatedPath(active, policy.archiveDir, ts);
        disk := (disk - {active})[dest := disk[active]];
        rotated := rotated + 1;
      }
      var lines := if active in disk then disk[active].lines else [];
      disk := disk[active := File(lines + [line], mtime)];
    }

    method RemoveFile(p: Path)
      modifies `disk, `pruned
      ensures disk == old(disk) - {p} && pruned == old(pruned) + |old(disk)| - |disk|
    {
      if p in disk {
        assert (disk - {p}).Keys == disk.Keys - {p} && |disk| == |disk.Keys| && |disk - {p}| == |(disk - {p}).Keys|;
        pruned := pruned + 1;
      } else {
        assert disk - {p} == disk;
      }
      disk := disk - {p};
    }

    /** One more file goes, on top of those already gone. */
    method RemoveNext(ghost was: Disk, ghost gone: set<Path>, p: Path)
      requires disk == was - gone
      modifies `disk, `pruned
      ensures disk == was - (gone + {p}) && pruned == old(pruned) + |old(disk)| - |disk|
    {
      RemoveBoth(was, gone, {p});
      RemoveFile(p);
    }

    method CollectCandidates(dir: string, listing: seq<Path>) returns (candidates: seq<Path>)
      ensures candidates == Candidates(listing, active, dir)
    {
      candidates := [];
      for i := 0 to |listing|
        invariant candidates == Candidates(listing[..i], active, dir)
      {
        assert listing[..i + 1][..i] == listing[..i];
        if IsCandidate(active, dir, listing[i]) {
          candidates := candidates + [listing[i]];
        }
      }
      assert listing[..|listing|] == listing;
    }

    /** The `retain` pass: aged files are removed and leave the list. */
    method DropAged(policy: Policy, sorted: seq<Path>, now: nat) returns (kept: seq<Path>)
      modifies `disk, `pruned
      ensures kept == Retained(old(disk), sorted, policy, now) && disk == old(disk) - Aged(old(disk), sorted, policy, now)
      ensures pruned == old(pruned) + |old(disk)| - |disk|
    {
      hide Aged, Retained, IsOld;
      var was := disk;
      kept := [];
      NoneAged(was, policy, now);
      for i := 0 to |sorted|
        invariant kept == Retained(was, sorted[..i], policy, now)
        invariant disk == was - Aged(was, sorted[..i], policy, now)
        invariant pruned == old(pruned) + |was| - |disk|
      {
        assert sorted[..i + 1] == sorted[..i] + [sorted[i]];
        AgedSnoc(was, sorted[..i], sorted[i], policy, now);
        if IsOld(was, sorted[i], policy, now) {
          RemoveNext(was, Aged(was, sorted[..i], policy, now), sorted[i]);
        } else {
          kept := kept + [sorted[i]];
        }
      }
      assert sorted[..|sorted|] == sorted;
    }

    method DropFirst(kept: seq<Path>, n: nat)
      requires n <= |kept|
      modifies `disk, `pruned
      ensures disk == old(disk) - Members(kept[..n]) && pruned == old(pruned) + |old(disk)| - |disk|
    {
      hide Members;
      var was := disk;
      NoMembers(was);
      for i := 0 to n
        invariant disk == was - Members(kept[..i])
        invariant pruned == old(pruned) + |was| - |disk|
      {
        assert kept[..i + 1] == kept[..i] + [kept[i]];
        MembersSnoc(kept[..i], kept[i]);
        RemoveNext(was, Members(kept[..i]), kept[i]);
      }
    }

    /** `prune_rotated_files`: collect, sort by age, drop the aged, then the excess. */
    method PruneRotated(policy: Policy, listing: seq<Path>, now: nat)
      modifies `disk, `pruned
      ensures disk == Prune(old(disk), active, policy, listing, now)
      ensures pruned == old(pruned) + |old(disk)| - |disk|
    {
      hide Candidates, SortByMtime, Retained, Aged, Members;
      var was := disk;
      var candidates := CollectCandidates(DestDir(active, policy.archiveDir), listing);
      var sorted := SortByMtime(was, candidates);
      var kept := DropAged(policy, sorted, now);
      var n := Excess(|kept|, policy);
      DropFirst(kept, n);
      RemoveBoth(was, Aged(was, sorted, policy, now), Members(kept[..n]));
    }
  }
}
