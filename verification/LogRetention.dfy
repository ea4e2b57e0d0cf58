/** What the rotating log still holds after any run of appends, rotations and prunes. */
module LogRetention {
  import opened Text
  import opened LogRotation

  // ---------------------------------------------------------------- what every step respects

  lemma {:induction false} SortMembers(d: Disk, x: seq<Path>, p: Path)
    ensures multiset(InsertByMtime(d, x, p)) == multiset(x) + multiset{p}
    decreases x
  {
    if !(x == [] || Mtime(d, x[|x| - 1]) <= Mtime(d, p)) {
      SortMembers(d, x[..|x| - 1], p);
      assert x == x[..|x| - 1] + [x[|x| - 1]];
    }
  }

  lemma {:induction false} SortIsPermutation(d: Disk, s: seq<Path>)
    ensures multiset(SortByMtime(d, s)) == multiset(s)
  {
    if s != [] {
      hide InsertByMtime;
      var rest, p := s[..|s| - 1], s[|s| - 1];
      SortIsPermutation(d, rest);
      SortMembers(d, SortByMtime(d, rest), p);
      assert s == rest + [p];
    }
  }

  lemma {:induction false} CandidatesAre(listing: seq<Path>, active: Path, dir: string, p: Path)
    ensures p in Candidates(listing, active, dir) <==> p in listing && IsCandidate(active, dir, p)
  {
    if listing != [] {
      assert listing == listing[..|listing| - 1] + [listing[|listing| - 1]];
      CandidatesAre(listing[..|listing| - 1], active, dir, p);
    }
  }

  lemma {:induction false} RetainedAre(d: Disk, s: seq<Path>, policy: Policy, now: nat, p: Path)
    ensures p in Retained(d, s, policy, now) <==> p in s && !IsOld(d, p, policy, now)
  {
    if s != [] {
      assert s == s[..|s| - 1] + [s[|s| - 1]];
      RetainedAre(d, s[..|s| - 1], policy, now, p);
    }
  }

  lemma SortedAre(d: Disk, s: seq<Path>, p: Path)
    ensures p in SortByMtime(d, s) <==> p in s
  {
    SortIsPermutation(d, s);
    assert p in s <==> p in multiset(s);
    assert p in SortByMtime(d, s) <==> p in multiset(SortByMtime(d, s));
  }

  /** Whatever the listing and the times, pruning touches neither the active file nor any name that is not the
      active name, a dot and digits; and what it keeps, it keeps unchanged. */
  lemma PruneTouchesOnlyRotated(d: Disk, active: Path, policy: Policy, listing: seq<Path>, now: nat, p: Path)
    requires p in d && !IsCandidate(active, DestDir(active, policy.archiveDir), p)
    ensures p in Prune(d, active, policy, listing, now) && Prune(d, active, policy, listing, now)[p] == d[p]
    ensures !IsCandidate(active, DestDir(active, policy.archiveDir), active)
  {
    var dir := DestDir(active, policy.archiveDir);
    var sorted := SortByMtime(d, Candidates(listing, active, dir));
    CandidatesAre(listing, active, dir, p);
    SortedAre(d, Candidates(listing, active, dir), p);
    RetainedAre(d, sorted, policy, now, p);
  }

  lemma RotatedPathIsCandidate(active: Path, archiveDir: Option<string>, ts: nat)
    ensures IsCandidate(active, DestDir(active, archiveDir), RotatedPath(active, archiveDir, ts))
  {
    var name := active.name + "." + Decimal(ts);
    assert name[..|active.name|] == active.name && name[|active.name| + 1..] == Decimal(ts);
  }

  /** After an append under a size limit the active file is smaller than the limit plus the line and its newline. */
  lemma ActiveStaysSmall(d: Disk, active: Path, policy: Policy, line: Line, ts: nat, mtime: nat)
    requires policy.maxFileBytes > 0
    ensures Size(LinesOf(Append(d, active, policy, line, ts, mtime), active)) < policy.maxFileBytes + |line| + 1
  {
    var e := BeforeWrite(d, active, policy, ts);
    RotatedPathIsCandidate(active, policy.archiveDir, ts);
    var lines := LinesOf(e, active);
    assert (lines + [line])[..|lines|] == lines;
    assert Size(lines) < policy.maxFileBytes;
  }

  /** Rotation keeps every other file exactly when the target name is free (or already holds the same file): two
      rotations in one millisecond overwrite each other. */
  lemma RotationKeepsOthers(d: Disk, active: Path, archiveDir: Option<string>, ts: nat)
    requires active in d
    ensures var dest := RotatedPath(active, archiveDir, ts); var e := Rotate(d, active, archiveDir, ts);
            (forall p :: p in d && p != active ==> p in e && e[p] == d[p]) <==> (dest !in d || d[dest] == d[active])
  {
    RotatedPathIsCandidate(active, archiveDir, ts);
  }

  /** Different rotation times give different names. */
  lemma RotationNamesDiffer(active: Path, archiveDir: Option<string>, ts: nat, ts': nat)
    ensures RotatedPath(active, archiveDir, ts) == RotatedPath(active, archiveDir, ts') <==> ts == ts'
  {
    var x, y := active.name + "." + Decimal(ts), active.name + "." + Decimal(ts');
    assert x[|active.name| + 1..] == Decimal(ts) && y[|active.name| + 1..] == Decimal(ts');
    DecimalRoundTrip(ts);
    DecimalRoundTrip(ts');
  }

  // ---------------------------------------------------------------- the rotated files in order

  predicate Strict(d: Disk, order: seq<Path>) {
    forall i, j :: 0 <= i < j < |order| ==> Mtime(d, order[i]) < Mtime(d, order[j])
  }

  predicate NonDecreasing(d: Disk, s: seq<Path>) {
    forall i, j :: 0 <= i < j < |s| ==> Mtime(d, s[i]) <= Mtime(d, s[j])
  }

  lemma {:induction false} InsertIsSorted(d: Disk, x: seq<Path>, p: Path)
    requires NonDecreasing(d, x)
    ensures NonDecreasing(d, InsertByMtime(d, x, p))
    ensures forall q :: q in InsertByMtime(d, x, p) <==> q in x || q == p
    decreases x
  {
    if x == [] || Mtime(d, x[|x| - 1]) <= Mtime(d, p) {
      assert forall i :: 0 <= i < |x| - 1 ==> Mtime(d, x[i]) <= Mtime(d, x[|x| - 1]);
    } else {
      var n := |x| - 1;
      InsertIsSorted(d, x[..n], p);
      var y := InsertByMtime(d, x[..n], p);
      assert x == x[..n] + [x[n]];
      forall i | 0 <= i < |y|
        ensures Mtime(d, y[i]) <= Mtime(d, x[n])
      {
        assert y[i] in y;
      }
    }
  }

  lemma {:induction false} SortIsSorted(d: Disk, s: seq<Path>)
    ensures NonDecreasing(d, SortByMtime(d, s))
  {
    if s != [] {
      SortIsSorted(d, s[..|s| - 1]);
      InsertIsSorted(d, SortByMtime(d, s[..|s| - 1]), s[|s| - 1]);
    }
  }

  lemma StrictSlice(d: Disk, e: Disk, order: seq<Path>, i: nat, j: nat)
    requires Strict(d, order) && i <= j <= |order|
    requires forall k :: i <= k < j ==> Mtime(d, order[k]) == Mtime(e, order[k])
    ensures Strict(e, order[i..j])
  {
    hide Mtime;
  }

  lemma SortedSlice(d: Disk, s: seq<Path>, j: nat)
    requires NonDecreasing(d, s) && j <= |s|
    ensures NonDecreasing(d, s[..j])
  {
    hide Mtime;
  }

  lemma DropLast(s: seq<Path>)
    requires s != []
    ensures multiset(s[..|s| - 1]) == multiset(s) - multiset{s[|s| - 1]}
  {
    assert s == s[..|s| - 1] + [s[|s| - 1]];
  }

  lemma LastIsSame(d: Disk, s: seq<Path>, order: seq<Path>)
    requires NonDecreasing(d, s) && Strict(d, order) && multiset(s) == multiset(order) && |s| == |order| && order != []
    ensures s[|s| - 1] == order[|order| - 1]
  {
    hide Mtime;
    var n := |order| - 1;
    assert s[n] in multiset(s) && order[n] in multiset(order);
    assert s[n] in order && order[n] in s;
    var i :| 0 <= i < |order| && order[i] == s[n];
    var j :| 0 <= j < |s| && s[j] == order[n];
    assert Mtime(d, s[j]) <= Mtime(d, s[n]);
    var mine, last := Mtime(d, order[i]), Mtime(d, order[n]);
    if i < n {
      assert false;
    }
  }

  lemma SameLength(s: seq<Path>, order: seq<Path>)
    requires multiset(s) == multiset(order)
    ensures |s| == |order|
  {
    assert |multiset(s)| == |multiset(order)|;
  }

  lemma RestIsSame(s: seq<Path>, order: seq<Path>)
    requires multiset(s) == multiset(order) && |s| == |order| > 0 && s[|s| - 1] == order[|s| - 1]
    ensures multiset(s[..|s| - 1]) == multiset(order[..|s| - 1])
  {
    DropLast(s);
    DropLast(order);
  }

  /** A sorted arrangement of files with different times is unique. */
  lemma {:induction false} SortIsUnique(d: Disk, s: seq<Path>, order: seq<Path>)
    requires NonDecreasing(d, s) && Strict(d, order) && multiset(s) == multiset(order)
    ensures s == order
    decreases order
  {
    hide Mtime, Strict, NonDecreasing;
    SameLength(s, order);
    if order != [] {
      var n := |order| - 1;
      LastIsSame(d, s, order);
      RestIsSame(s, order);
      StrictSlice(d, d, order, 0, n);
      SortedSlice(d, s, n);
      SortIsUnique(d, s[..n], order[..n]);
      assert s[n] == order[n] && s[..n] == order[..n];
    }
  }

  // ---------------------------------------------------------------- the invariant

  /** `order` lists the rotated files, oldest first; together with the active file they hold `held`. */
  ghost predicate Holds(d: Disk, active: Path, dir: string, order: seq<Path>, held: seq<Line>) {
    Strict(d, order) && Lists(d, active, dir, order) && Content(d, order) + LinesOf(d, active) == held
  }

  ghost predicate Lists(d: Disk, active: Path, dir: string, order: seq<Path>) {
    forall p :: p in order <==> p in d && IsCandidate(active, dir, p)
  }

  function Content(d: Disk, order: seq<Path>): seq<Line> {
    if order == [] then [] else Content(d, order[..|order| - 1]) + LinesOf(d, order[|order| - 1])
  }

  lemma {:induction false} ContentSame(d: Disk, e: Disk, order: seq<Path>)
    requires forall i :: 0 <= i < |order| ==> LinesOf(d, order[i]) == LinesOf(e, order[i])
    ensures Content(d, order) == Content(e, order)
  {
    if order != [] {
      ContentSame(d, e, order[..|order| - 1]);
    }
  }

  lemma {:induction false} ContentConcat(d: Disk, x: seq<Path>, y: seq<Path>)
    ensures Content(d, x + y) == Content(d, x) + Content(d, y)
    decreases y
  {
    if y == [] {
      assert x + y == x;
    } else {
      assert (x + y)[..|x + y| - 1] == x + y[..|y| - 1];
      ContentConcat(d, x, y[..|y| - 1]);
    }
  }

  predicate IsSuffix(x: seq<Line>, y: seq<Line>) { |x| <= |y| && y[|y| - |x|..] == x }

  // ---------------------------------------------------------------- append keeps it

  /** The file system behaves: a rotation gets a fresh name and the rotated file is newer than those before it. */
  predicate FreshRotation(d: Disk, active: Path, policy: Policy, order: seq<Path>, ts: nat) {
    MustRotate(d, active, policy) ==>
      RotatedPath(active, policy.archiveDir, ts) !in d &&
      forall i :: 0 <= i < |order| ==> Mtime(d, order[i]) < Mtime(d, active)
  }

  lemma RotateLists(d: Disk, active: Path, archiveDir: Option<string>, order: seq<Path>, ts: nat)
    requires active in d && Lists(d, active, DestDir(active, archiveDir), order) && RotatedPath(active, archiveDir, ts) !in d
    ensures var e, dest := Rotate(d, active, archiveDir, ts), RotatedPath(active, archiveDir, ts);
            Lists(e, active, DestDir(active, archiveDir), order + [dest]) && dest in e && e[dest] == d[active] && active !in e &&
            forall i :: 0 <= i < |order| ==> order[i] in d && order[i] in e && e[order[i]] == d[order[i]]
  {
    hide IsRotatedName, RotatedPath;
    RotatedPathIsCandidate(active, archiveDir, ts);
    forall i | 0 <= i < |order|
      ensures order[i] in d && order[i] != active
    {
      assert order[i] in order;
    }
  }

  lemma ContentSnoc(d: Disk, order: seq<Path>, p: Path)
    ensures Content(d, order + [p]) == Content(d, order) + LinesOf(d, p)
  {
    assert (order + [p])[..|order|] == order;
  }

  lemma RotateHolds(d: Disk, active: Path, archiveDir: Option<string>, order: seq<Path>, held: seq<Line>, ts: nat)
    requires active in d && Holds(d, active, DestDir(active, archiveDir), order, held)
    requires RotatedPath(active, archiveDir, ts) !in d
    requires forall i :: 0 <= i < |order| ==> Mtime(d, order[i]) < Mtime(d, active)
    ensures Holds(Rotate(d, active, archiveDir, ts), active, DestDir(active, archiveDir), order + [RotatedPath(active, archiveDir, ts)], held)
  {
    hide Lists, RotatedPath, Rotate, Content, DestDir;
    var dest, e := RotatedPath(active, archiveDir, ts), Rotate(d, active, archiveDir, ts);
    RotateLists(d, active, archiveDir, order, ts);
    ContentSame(d, e, order);
    ContentSnoc(e, order, dest);
    assert Mtime(e, dest) == Mtime(d, active) && LinesOf(e, dest) == LinesOf(d, active) && LinesOf(e, active) == [];
    assert Content(d, order) + LinesOf(d, active) + [] == Content(d, order) + LinesOf(d, active);
  }

  lemma WriteHolds(d: Disk, active: Path, dir: string, order: seq<Path>, held: seq<Line>, line: Line, mtime: nat)
    requires Holds(d, active, dir, order, held)
    ensures Holds(d[active := File(LinesOf(d, active) + [line], mtime)], active, dir, order, held + [line])
  {
    hide IsRotatedName;
    var e := d[active := File(LinesOf(d, active) + [line], mtime)];
    forall i | 0 <= i < |order|
      ensures order[i] in e && e[order[i]] == d[order[i]]
    {
      assert order[i] in order;
    }
    ContentSame(d, e, order);
    assert Content(e, order) + (LinesOf(d, active) + [line]) == Content(d, order) + LinesOf(d, active) + [line];
  }

  function OrderAfterAppend(d: Disk, active: Path, policy: Policy, order: seq<Path>, ts: nat): seq<Path> {
    if MustRotate(d, active, policy) then order + [RotatedPath(active, policy.archiveDir, ts)] else order
  }

  lemma AppendHolds(d: Disk, active: Path, policy: Policy, order: seq<Path>, held: seq<Line>, line: Line, ts: nat, mtime: nat)
    requires Holds(d, active, DestDir(active, policy.archiveDir), order, held) && FreshRotation(d, active, policy, order, ts)
    ensures Holds(Append(d, active, policy, line, ts, mtime), active, DestDir(active, policy.archiveDir),
                  OrderAfterAppend(d, active, policy, order, ts), held + [line])
  {
    hide Holds, Rotate;
    if MustRotate(d, active, policy) {
      RotateHolds(d, active, policy.archiveDir, order, held, ts);
    }
    WriteHolds(BeforeWrite(d, active, policy, ts), active, DestDir(active, policy.archiveDir),
      OrderAfterAppend(d, active, policy, order, ts), held, line, mtime);
  }

  // ---------------------------------------------------------------- prune keeps it

  lemma {:induction false} DistinctCandidates(listing: seq<Path>, active: Path, dir: string)
    requires forall i, j :: 0 <= i < j < |listing| ==> listing[i] != listing[j]
    ensures var c := Candidates(listing, active, dir); forall p :: multiset(c)[p] <= 1
  {
    if listing != [] {
      var n := |listing| - 1;
      DistinctCandidates(listing[..n], active, dir);
      CandidatesAre(listing[..n], active, dir, listing[n]);
      var c := Candidates(listing[..n], active, dir);
      assert listing[n] !in listing[..n];
      assert listing[n] !in multiset(c);
    }
  }

  lemma StrictIsDistinct(d: Disk, order: seq<Path>)
    requires Strict(d, order)
    ensures forall p :: multiset(order)[p] <= 1
    decreases order
  {
    if order != [] {
      var n := |order| - 1;
      StrictIsDistinct(d, order[..n]);
      assert order == order[..n] + [order[n]];
      assert order[n] !in order[..n];
      assert order[n] !in multiset(order[..n]);
    }
  }

  /** Sorting the candidates of any listing gives the rotated files in rotation order. */
  lemma SortFindsOrder(d: Disk, active: Path, dir: string, order: seq<Path>, listing: seq<Path>)
    requires Strict(d, order) && IsListing(listing, d, dir) && Lists(d, active, dir, order)
    ensures SortByMtime(d, Candidates(listing, active, dir)) == order
  {
    hide IsRotatedName, SortByMtime;
    var c := Candidates(listing, active, dir);
    DistinctCandidates(listing, active, dir);
    StrictIsDistinct(d, order);
    forall p
      ensures multiset(c)[p] == multiset(order)[p]
    {
      CandidatesAre(listing, active, dir, p);
      assert p in c <==> p in multiset(c);
      assert p in order <==> p in multiset(order);
    }
    assert multiset(c) == multiset(order);
    SortIsPermutation(d, c);
    SortIsSorted(d, c);
    SortIsUnique(d, SortByMtime(d, c), order);
  }

  /** How many of the oldest files a prune removes for their age. */
  function AgedCount(d: Disk, order: seq<Path>, policy: Policy, now: nat): (n: nat)
    ensures n <= |order|
  {
    if order == [] then 0
    else if IsOld(d, order[|order| - 1], policy, now) then |order|
    else AgedCount(d, order[..|order| - 1], policy, now)
  }

  lemma {:induction false} AgedAreOldest(d: Disk, order: seq<Path>, policy: Policy, now: nat)
    requires Strict(d, order)
    ensures var n := AgedCount(d, order, policy, now);
            Retained(d, order, policy, now) == order[n..] && Aged(d, order, policy, now) == Members(order[..n])
  {
    hide IsOld, Aged, Retained, Members, Strict, Mtime;
    if order == [] {
      NoneAged(d, policy, now);
    } else {
      var k, n := |order| - 1, AgedCount(d, order, policy, now);
      if IsOld(d, order[k], policy, now) {
        AllOld(d, order, policy, now);
        assert order[..n] == order;
      } else {
        StrictSlice(d, d, order, 0, k);
        AgedAreOldest(d, order[..k], policy, now);
        AgedSnoc(d, order[..k], order[k], policy, now);
        Peel(order, n);
      }
    }
  }

  lemma NoneAged(d: Disk, policy: Policy, now: nat)
    ensures Retained(d, [], policy, now) == [] && Aged(d, [], policy, now) == Members([])
  {
  }

  lemma Peel(order: seq<Path>, n: nat)
    requires order != [] && n <= |order| - 1
    ensures var k := |order| - 1;
            order == order[..k] + [order[k]] && order[..k][n..] + [order[k]] == order[n..] && order[..k][..n] == order[..n]
  {
  }

  lemma {:induction false} AllOld(d: Disk, order: seq<Path>, policy: Policy, now: nat)
    requires Strict(d, order) && order != [] && IsOld(d, order[|order| - 1], policy, now)
    ensures forall i :: 0 <= i < |order| ==> IsOld(d, order[i], policy, now)
    ensures Retained(d, order, policy, now) == [] && Aged(d, order, policy, now) == Members(order)
  {
    var k := |order| - 1;
    assert forall i :: 0 <= i < k ==> Mtime(d, order[i]) < Mtime(d, order[k]);
    if k > 0 {
      AllOld(d, order[..k], policy, now);
    }
  }

  /** The number of oldest rotated files a prune removes. */
  function PrunedCount(d: Disk, order: seq<Path>, policy: Policy, now: nat): (n: nat)
    ensures n <= |order|
  {
    var aged := AgedCount(d, order, policy, now);
    aged + Excess(|order| - aged, policy)
  }

  /** A prune removes exactly the oldest rotated files: those past the retention age, and more until at most
      `rotate_keep` remain. */
  lemma PruneDropsOldest(d: Disk, active: Path, policy: Policy, order: seq<Path>, listing: seq<Path>, now: nat)
    requires Strict(d, order) && IsListing(listing, d, DestDir(active, policy.archiveDir))
    requires Lists(d, active, DestDir(active, policy.archiveDir), order)
    ensures Prune(d, active, policy, listing, now) == d - Members(order[..PrunedCount(d, order, policy, now)])
  {
    hide Lists, SortByMtime, Candidates, Retained, Aged, Strict;
    SortFindsOrder(d, active, DestDir(active, policy.archiveDir), order, listing);
    AgedAreOldest(d, order, policy, now);
    var a, n := AgedCount(d, order, policy, now), PrunedCount(d, order, policy, now);
    assert order[a..][..n - a] == order[a..n];
    assert order[..n] == order[..a] + order[a..n];
    assert Members(order[..n]) == Members(order[..a]) + Members(order[a..n]);
  }

  lemma PruneHolds(d: Disk, active: Path, policy: Policy, order: seq<Path>, held: seq<Line>, listing: seq<Path>, now: nat)
    requires Holds(d, active, DestDir(active, policy.archiveDir), order, held)
    requires IsListing(listing, d, DestDir(active, policy.archiveDir))
    ensures var n := PrunedCount(d, order, policy, now); var k := |Content(d, order[..n])|;
            k <= |held| &&
            Holds(Prune(d, active, policy, listing, now), active, DestDir(active, policy.archiveDir), order[n..], held[k..])
  {
    var n := PrunedCount(d, order, policy, now);
    PruneDropsOldest(d, active, policy, order, listing, now);
    hide Lists, IsListing, Prune, Strict, PrunedCount;
    DropHolds(d, active, DestDir(active, policy.archiveDir), order, held, n);
  }

  lemma DropLists(d: Disk, active: Path, dir: string, order: seq<Path>, n: nat)
    requires Strict(d, order) && Lists(d, active, dir, order) && n <= |order|
    ensures var e := d - Members(order[..n]);
            Lists(e, active, dir, order[n..]) && LinesOf(e, active) == LinesOf(d, active) &&
            forall i :: n <= i < |order| ==> order[i] in e && order[i] in d
  {
    hide IsRotatedName;
    var e := d - Members(order[..n]);
    forall i | n <= i < |order|
      ensures order[i] in e && order[i] in d
    {
      NotBefore(d, order, n, i);
    }
    assert order == order[..n] + order[n..];
    forall p | p in order[n..]
      ensures p in e
    {
      var i :| 0 <= i < |order[n..]| && order[n..][i] == p;
      assert order[n + i] == p;
    }
  }

  lemma DropHolds(d: Disk, active: Path, dir: string, order: seq<Path>, held: seq<Line>, n: nat)
    requires Holds(d, active, dir, order, held) && n <= |order|
    ensures |Content(d, order[..n])| <= |held|
    ensures Holds(d - Members(order[..n]), active, dir, order[n..], held[|Content(d, order[..n])|..])
  {
    hide Lists, Members, Strict, Content;
    var gone, left, e := order[..n], order[n..], d - Members(order[..n]);
    DropLists(d, active, dir, order, n);
    assert order == gone + left && left == order[n..|order|];
    ContentConcat(d, gone, left);
    ContentSame(d, e, left);
    StrictSlice(d, e, order, n, |order|);
    var x, y, z := Content(d, gone), Content(d, left), LinesOf(d, active);
    assert held == x + y + z == x + (y + z);
  }

  lemma NotBefore(d: Disk, order: seq<Path>, n: nat, k: nat)
    requires Strict(d, order) && n <= k < |order|
    ensures order[k] in order && order[k] !in Members(order[..n])
  {
    forall i | 0 <= i < n
      ensures order[i] != order[k]
    {
      assert Mtime(d, order[i]) < Mtime(d, order[k]);
    }
  }

  // ---------------------------------------------------------------- runs

  datatype Op = DoAppend(policy: Policy, line: Line, ts: nat, mtime: nat) | DoPrune(policy: Policy, listing: seq<Path>, now: nat)

  function Apply(d: Disk, active: Path, op: Op): Disk {
    match op
    case DoAppend(policy, line, ts, mtime) => Append(d, active, policy, line, ts, mtime)
    case DoPrune(policy, listing, now) => Prune(d, active, policy, listing, now)
  }

  function OrderAfter(d: Disk, active: Path, order: seq<Path>, op: Op): seq<Path> {
    match op
    case DoAppend(policy, _, ts, _) => OrderAfterAppend(d, active, policy, order, ts)
    case DoPrune(policy, _, now) => order[PrunedCount(d, order, policy, now)..]
  }

  /** The log's policies may change between steps, except for the archive directory; rotations are fresh and
      listings are listings. */
  ghost predicate Behaves(d: Disk, active: Path, archiveDir: Option<string>, order: seq<Path>, op: Op) {
    op.policy.archiveDir == archiveDir &&
    match op
    case DoAppend(policy, _, ts, _) => FreshRotation(d, active, policy, order, ts)
    case DoPrune(_, listing, _) => IsListing(listing, d, DestDir(active, archiveDir))
  }

  function Appended(ops: seq<Op>): seq<Line> {
    if ops == [] then []
    else Appended(ops[..|ops| - 1]) + if ops[|ops| - 1].DoAppend? then [ops[|ops| - 1].line] else []
  }

  function RunDisk(d: Disk, active: Path, ops: seq<Op>): Disk {
    if ops == [] then d else Apply(RunDisk(d, active, ops[..|ops| - 1]), active, ops[|ops| - 1])
  }

  function RunOrder(d: Disk, active: Path, order: seq<Path>, ops: seq<Op>): seq<Path> {
    if ops == [] then order
    else
      var before := ops[..|ops| - 1];
      OrderAfter(RunDisk(d, active, before), active, RunOrder(d, active, order, before), ops[|ops| - 1])
  }

  ghost predicate AllBehave(d: Disk, active: Path, archiveDir: Option<string>, order: seq<Path>, ops: seq<Op>) {
    forall i :: 0 <= i < |ops| ==>
      Behaves(RunDisk(d, active, ops[..i]), active, archiveDir, RunOrder(d, active, order, ops[..i]), ops[i])
  }

  ghost predicate HoldsSuffix(d: Disk, active: Path, dir: string, order: seq<Path>, all: seq<Line>) {
    exists held :: Holds(d, active, dir, order, held) && IsSuffix(held, all)
  }

  lemma StepHoldsSuffix(d: Disk, active: Path, archiveDir: Option<string>, order: seq<Path>, all: seq<Line>, op: Op)
    requires HoldsSuffix(d, active, DestDir(active, archiveDir), order, all) && Behaves(d, active, archiveDir, order, op)
    ensures HoldsSuffix(Apply(d, active, op), active, DestDir(active, archiveDir), OrderAfter(d, active, order, op),
                        all + if op.DoAppend? then [op.line] else [])
  {
    hide Holds, Prune, Append, FreshRotation, IsListing;
    var dir := DestDir(active, archiveDir);
    var held :| Holds(d, active, dir, order, held) && IsSuffix(held, all);
    match op {
      case DoAppend(policy, line, ts, mtime) =>
        AppendHolds(d, active, policy, order, held, line, ts, mtime);
        assert IsSuffix(held + [line], all + [line]);
      case DoPrune(policy, listing, now) =>
        PruneHolds(d, active, policy, order, held, listing, now);
        var k := |Content(d, order[..PrunedCount(d, order, policy, now)])|;
        assert IsSuffix(held[k..], all) && all + [] == all;
    }
  }

  lemma HoldsWhole(d: Disk, active: Path, dir: string, order: seq<Path>, held: seq<Line>)
    requires Holds(d, active, dir, order, held)
    ensures HoldsSuffix(d, active, dir, order, held)
  {
    hide Holds;
    assert IsSuffix(held, held);
  }

  lemma BehavedBefore(d: Disk, active: Path, archiveDir: Option<string>, order: seq<Path>, ops: seq<Op>)
    requires AllBehave(d, active, archiveDir, order, ops) && ops != []
    ensures var n := |ops| - 1; var before := ops[..n];
            AllBehave(d, active, archiveDir, order, before) &&
            Behaves(RunDisk(d, active, before), active, archiveDir, RunOrder(d, active, order, before), ops[n])
  {
    hide Behaves, RunDisk, RunOrder;
    var n := |ops| - 1;
    assert forall i :: 0 <= i < n ==> ops[..n][..i] == ops[..i];
  }

  /** Log retention: after any run of appends, rotations and prunes, the rotated files in rotation order followed by
      the active file hold a contiguous suffix of everything ever written. */
  lemma {:induction false} LogHoldsSuffix(d: Disk, active: Path, archiveDir: Option<string>, order: seq<Path>, held: seq<Line>, ops: seq<Op>)
    requires Holds(d, active, DestDir(active, archiveDir), order, held) && AllBehave(d, active, archiveDir, order, ops)
    ensures HoldsSuffix(RunDisk(d, active, ops), active, DestDir(active, archiveDir), RunOrder(d, active, order, ops), held + Appended(ops))
  {
    hide Holds, Behaves, Apply, OrderAfter, IsSuffix, AllBehave, HoldsSuffix;
    if ops == [] {
      assert held + Appended(ops) == held;
      HoldsWhole(d, active, DestDir(active, archiveDir), order, held);
    } else {
      var n := |ops| - 1;
      var before := ops[..n];
      BehavedBefore(d, active, archiveDir, order, ops);
      LogHoldsSuffix(d, active, archiveDir, order, held, before);
      StepHoldsSuffix(RunDisk(d, active, before), active, archiveDir, RunOrder(d, active, order, before), held + Appended(before), ops[n]);
      var more := if ops[n].DoAppend? then [ops[n].line] else [];
      assert held + Appended(before) + more == held + Appended(ops);
    }
  }


  // ---------------------------------------------------------------- the sink in words

  /** The bytes of a file: every line with its newline. */
  function TextOf(lines: seq<Line>): string {
    if lines == [] then "" else TextOf(lines[..|lines| - 1]) + lines[|lines| - 1] + "\n"
  }

  lemma {:induction false} SizeLaw(lines: seq<Line>)
    ensures Size(lines) == |TextOf(lines)|
  {
    if lines != [] {
      SizeLaw(lines[..|lines| - 1]);
    }
  }

  /** An append rotates exactly when there is a limit and the active file has reached it. Then the file moves to its
      name, a dot and the time, in the archive directory or its own, and a new one starts with the line; otherwise
      the line is added. Other files stay. */
  lemma AppendLaw(d: Disk, active: Path, policy: Policy, line: Line, ts: nat, mtime: nat)
    ensures var r := Append(d, active, policy, line, ts, mtime);
            var full := policy.maxFileBytes > 0 && active in d && |TextOf(d[active].lines)| >= policy.maxFileBytes;
            var dir := if policy.archiveDir.Some? then policy.archiveDir.value else active.dir;
            var dest := Path(dir, active.name + "." + Decimal(ts));
            (!full ==> r == d[active := File((if active in d then d[active].lines else []) + [line], mtime)]) &&
            (full ==>
              active in r && r[active] == File([line], mtime) && dest != active && dest in r && r[dest] == d[active] &&
              forall p :: p != active && p != dest ==> (p in r <==> p in d) && (p in d ==> r[p] == d[p]))
  {
    if active in d {
      SizeLaw(d[active].lines);
    }
    RotatedPathIsCandidate(active, policy.archiveDir, ts);
    assert [] + [line] == [line];
  }

  predicate IsNumber(s: string) { s != "" && forall i :: 0 <= i < |s| ==> '0' <= s[i] <= '9' }

  /** A candidate for pruning is a file of the directory named like the active file, with a dot and digits. */
  lemma CandidateLaw(active: Path, dir: string, p: Path)
    ensures IsCandidate(active, dir, p) <==>
            p.dir == dir && exists digits: string :: IsNumber(digits) && p.name == active.name + "." + digits
  {
    var prefix, name := active.name, p.name;
    if IsCandidate(active, dir, p) {
      var digits := name[|prefix| + 1..];
      assert name == prefix + "." + digits;
      assert IsNumber(digits);
    }
    if digits: string :| IsNumber(digits) && name == prefix + "." + digits {
      assert name[|prefix| + 1..] == digits;
    }
  }

  /** Of the rotated files, oldest first, the `i`-th survives a prune exactly when it is within the retention time, if
      there is one, and among the newest `rotate_keep`, if there is such a number. */
  lemma SurvivorLaw(d: Disk, active: Path, policy: Policy, order: seq<Path>, listing: seq<Path>, now: nat, i: nat)
    requires Strict(d, order) && IsListing(listing, d, DestDir(active, policy.archiveDir))
    requires Lists(d, active, DestDir(active, policy.archiveDir), order) && i < |order|
    ensures order[i] in Prune(d, active, policy, listing, now) <==>
            (policy.retainDays == 0 || now <= Mtime(d, order[i]) + policy.retainDays * 24 * 60 * 60 * 1000) &&
            (policy.rotateKeep == 0 || |order| - i <= policy.rotateKeep)
  {
    hide Lists, Prune, Mtime, IsListing;
    PruneDropsOldest(d, active, policy, order, listing, now);
    var a, n := AgedCount(d, order, policy, now), PrunedCount(d, order, policy, now);
    AgedCountIs(d, order, policy, now, i);
    MemberBefore(d, order, n, i);
    assert policy.retainDays * 24 * 60 * 60 * 1000 == policy.retainDays * 86_400_000;
    ListedIsThere(d, active, DestDir(active, policy.archiveDir), order, i);
  }

  lemma ListedIsThere(d: Disk, active: Path, dir: string, order: seq<Path>, i: nat)
    requires Lists(d, active, dir, order) && i < |order|
    ensures order[i] in d
  {
    assert order[i] in order;
  }

  lemma MemberBefore(d: Disk, order: seq<Path>, n: nat, i: nat)
    requires Strict(d, order) && n <= |order| && i < |order|
    ensures order[i] in Members(order[..n]) <==> i < n
  {
    hide Mtime;
    if order[i] in Members(order[..n]) {
      var j :| 0 <= j < n && order[..n][j] == order[i];
      assert order[j] == order[i];
    }
    if i < n {
      assert order[..n][i] == order[i];
    }
  }

  lemma {:induction false} AgedCountIs(d: Disk, order: seq<Path>, policy: Policy, now: nat, i: nat)
    requires Strict(d, order) && i < |order|
    ensures i < AgedCount(d, order, policy, now) <==> IsOld(d, order[i], policy, now)
  {
    hide Mtime;
    var k := |order| - 1;
    if !IsOld(d, order[k], policy, now) && i < k {
      StrictSlice(d, d, order, 0, k);
      AgedCountIs(d, order[..k], policy, now, i);
    }
  }
}
