/** The bounded-memory stream summary of `stream_summary.py`.

    A running hash is modelled by the bytes fed to it; the digest itself is a parameter. */
module StreamSummary {
  import opened Text

  type Byte = x: int | 0 <= x < 256

  const LF: Byte := 10

  // ---------------------------------------------------------------- the whole-input definition

  /** The lines a text has finished, each without its LF. */
  function Done(s: seq<Byte>): seq<seq<Byte>> {
    if s == [] then []
    else if s[|s| - 1] == LF then Done(s[..|s| - 1]) + [Open(s[..|s| - 1])]
    else Done(s[..|s| - 1])
  }

  /** What has been read since the last LF. */
  function Open(s: seq<Byte>): seq<Byte> {
    if s == [] || s[|s| - 1] == LF then [] else Open(s[..|s| - 1]) + [s[|s| - 1]]
  }

  predicate EndsWithLF(s: seq<Byte>) { s != [] && s[|s| - 1] == LF }

  /** All lines: an unterminated last line counts. */
  function Lines(s: seq<Byte>): seq<seq<Byte>> {
    if s == [] || EndsWithLF(s) then Done(s) else Done(s) + [Open(s)]
  }

  function Longest(lines: seq<seq<Byte>>): nat {
    if lines == [] then 0 else Max(Longest(lines[..|lines| - 1]), |lines[|lines| - 1]|)
  }

  function Max(a: nat, b: nat): nat { if a >= b then a else b }

  datatype Summary = Summary(
    bytes: nat, lines: nat, maxLineBytes: nat, endsWithLF: bool,
    digest: string, firstLine: Option<string>, lastLine: Option<string>)

  function First(lines: seq<seq<Byte>>, sha: seq<Byte> -> string): Option<string> {
    if lines == [] then None else Some(sha(lines[0]))
  }

  function Last(lines: seq<seq<Byte>>, sha: seq<Byte> -> string): Option<string> {
    if lines == [] then None else Some(sha(lines[|lines| - 1]))
  }

  function Summarized(s: seq<Byte>, sha: seq<Byte> -> string): Summary {
    var lines := Lines(s);
    Summary(|s|, |lines|, Longest(lines), EndsWithLF(s), sha(s), First(lines, sha), Last(lines, sha))
  }

  // ---------------------------------------------------------------- the definition is the split at LF

  function Join(lines: seq<seq<Byte>>): seq<Byte> {
    if lines == [] then [] else Join(lines[..|lines| - 1]) + lines[|lines| - 1] + [LF]
  }

  /** Joining the lines back with LF gives the text, and no line contains an LF. */
  lemma {:induction false} LinesAreTheSplit(s: seq<Byte>)
    ensures Join(Done(s)) + Open(s) == s
    ensures LF !in Open(s)
    ensures forall k :: 0 <= k < |Done(s)| ==> LF !in Done(s)[k]
  {
    if s != [] {
      var p, c := s[..|s| - 1], s[|s| - 1];
      LinesAreTheSplit(p);
      assert s == p + [c];
      if c == LF {
        assert Done(s)[..|Done(s)| - 1] == Done(p);
        assert Join(Done(s)) == Join(Done(p)) + Open(p) + [LF];
      } else {
        assert Join(Done(p)) + (Open(p) + [c]) == (Join(Done(p)) + Open(p)) + [c];
      }
    }
  }

  lemma {:induction false} Segment(p: seq<Byte>, seg: seq<Byte>)
    requires LF !in seg
    ensures Done(p + seg) == Done(p) && Open(p + seg) == Open(p) + seg
  {
    if seg == [] {
      assert p + seg == p;
    } else {
      var n := |seg| - 1;
      assert (p + seg)[..|p + seg| - 1] == p + seg[..n];
      Segment(p, seg[..n]);
      assert Open(p) + seg[..n] + [seg[n]] == Open(p) + seg;
    }
  }

  lemma LineEnds(p: seq<Byte>)
    ensures Done(p + [LF]) == Done(p) + [Open(p)] && Open(p + [LF]) == []
  {
    assert (p + [LF])[..|p|] == p;
  }

  // ---------------------------------------------------------------- the loops

  function Flatten(chunks: seq<seq<Byte>>): seq<Byte> {
    if chunks == [] then [] else Flatten(chunks[..|chunks| - 1]) + chunks[|chunks| - 1]
  }

  /** The summariser's local variables, shared with its inner `finish_line`. */
  class Summariser {
    const sha: seq<Byte> -> string
    var full: seq<Byte>
    var line: seq<Byte>
    var totalBytes: nat
    var lineBytes: nat
    var lines: nat
    var maxLineBytes: nat
    var firstLine: Option<string>
    var lastLine: Option<string>
    var endsWithLF: bool

    /** The line variables stand for exactly the text `s` read so far. */
    ghost predicate Tracks(s: seq<Byte>)
      reads `line, `lineBytes, `lines, `maxLineBytes, `firstLine, `lastLine
    {
      line == Open(s) && lineBytes == |line| && lines == |Done(s)| && maxLineBytes == Longest(Done(s)) &&
      firstLine == First(Done(s), sha) && lastLine == Last(Done(s), sha)
    }

    constructor (sha: seq<Byte> -> string)
      ensures this.sha == sha && full == [] && totalBytes == 0 && !endsWithLF && Tracks([])
    {
      this.sha := sha;
      full, line, totalBytes, lineBytes, lines, maxLineBytes := [], [], 0, 0, 0, 0;
      firstLine, lastLine, endsWithLF := None, None, false;
    }

    /** `finish_line`: the open line becomes the last finished one. */
    method FinishLine()
      modifies `line, `lineBytes, `lines, `maxLineBytes, `firstLine, `lastLine
      ensures lines == old(lines) + 1 && maxLineBytes == Max(old(maxLineBytes), old(lineBytes))
      ensures firstLine == if old(firstLine).None? then Some(sha(old(line))) else old(firstLine)
      ensures lastLine == Some(sha(old(line))) && line == [] && lineBytes == 0
    {
      var digest := sha(line);
      lines := lines + 1;
      maxLineBytes := Max(maxLineBytes, lineBytes);
      if firstLine.None? {
        firstLine := Some(digest);
      }
      lastLine := Some(digest);
      line := [];
      lineBytes := 0;
    }

    /** One finished line more: what `FinishLine` does when the text read so far is `s`. */
    method FinishAfter(ghost s: seq<Byte>)
      requires Tracks(s)
      modifies `line, `lineBytes, `lines, `maxLineBytes, `firstLine, `lastLine
      ensures Tracks(s + [LF])
    {
      LineEnds(s);
      FinishLine();
      ghost var d := Done(s) + [Open(s)];
      assert d[..|d| - 1] == Done(s);
    }

    /** Bytes without an LF go to the open line. */
    method Extend(ghost s: seq<Byte>, segment: seq<Byte>)
      requires Tracks(s) && LF !in segment
      modifies `line, `lineBytes
      ensures Tracks(s + segment)
    {
      Segment(s, segment);
      line := line + segment;
      lineBytes := lineBytes + |segment|;
    }

    /** The inner loop over one chunk. */
    method Feed(ghost s: seq<Byte>, chunk: seq<Byte>)
      requires Tracks(s) && full == s && totalBytes == |s| && chunk != []
      modifies this
      ensures Tracks(s + chunk) && full == s + chunk && totalBytes == |s + chunk| && endsWithLF == EndsWithLF(s + chunk)
    {
      hide Tracks;
      full := full + chunk;
      totalBytes := totalBytes + |chunk|;
      endsWithLF := chunk[|chunk| - 1] == LF;
      var start := 0;
      assert s + chunk[..0] == s;
      while true
        invariant 0 <= start <= |chunk|
        invariant Tracks(s + chunk[..start])
        invariant full == s + chunk && totalBytes == |s + chunk| && endsWithLF == EndsWithLF(s + chunk)
        decreases |chunk| - start
      {
        var newline := FindLF(chunk, start);
        var end := if newline < 0 then |chunk| else newline;
        var segment := chunk[start..end];
        Extend(s + chunk[..start], segment);
        assert s + chunk[..start] + segment == s + chunk[..end];
        if newline < 0 {
          assert chunk[..end] == chunk;
          break;
        }
        FinishAfter(s + chunk[..end]);
        assert s + chunk[..end] + [LF] == s + chunk[..end + 1];
        start := newline + 1;
      }
    }
  }

  method FindLF(chunk: seq<Byte>, start: nat) returns (r: int)
    requires start <= |chunk|
    ensures r < 0 ==> LF !in chunk[start..]
    ensures r >= 0 ==> start <= r < |chunk| && chunk[r] == LF && LF !in chunk[start..r]
  {
    var i := start;
    while i < |chunk|
      invariant start <= i <= |chunk|
      invariant LF !in chunk[start..i]
    {
      if chunk[i] == LF {
        return i;
      }
      i := i + 1;
    }
    assert chunk[start..i] == chunk[start..];
    return -1;
  }

  datatype Outcome = Ok(summary: Summary) | ValueError

  /** `summarize_stream`: however the reads cut the stream, the answer is that of the whole input. */
  method SummarizeStream(chunks: seq<seq<Byte>>, chunkBytes: int, sha: seq<Byte> -> string) returns (r: Outcome)
    requires forall k :: 0 <= k < |chunks| ==> chunks[k] != []
    ensures r == if chunkBytes <= 0 then ValueError else Ok(Summarized(Flatten(chunks), sha))
  {
    if chunkBytes <= 0 {
      return ValueError;
    }
    var u := new Summariser(sha);
    for k := 0 to |chunks|
      invariant u.sha == sha && fresh(u)
      invariant u.Tracks(Flatten(chunks[..k])) && u.full == Flatten(chunks[..k])
      invariant u.totalBytes == |u.full| && u.endsWithLF == EndsWithLF(u.full)
    {
      assert chunks[..k + 1][..k] == chunks[..k];
      u.Feed(Flatten(chunks[..k]), chunks[k]);
    }
    assert chunks[..|chunks|] == chunks;
    ghost var s := Flatten(chunks);
    if u.totalBytes > 0 && !u.endsWithLF {
      u.FinishLine();
      assert Lines(s)[..|Lines(s)| - 1] == Done(s);
    }
    return Ok(Summary(u.totalBytes, u.lines, u.maxLineBytes, u.endsWithLF, sha(u.full), u.firstLine, u.lastLine));
  }

  // ---------------------------------------------------------------- the summary in words

  function Count(s: seq<Byte>, b: Byte): nat { if s == [] then 0 else Count(s[..|s| - 1], b) + if s[|s| - 1] == b then 1 else 0 }

  lemma {:induction false} DoneCounts(s: seq<Byte>)
    ensures |Done(s)| == Count(s, 10)
  {
    if s != [] {
      DoneCounts(s[..|s| - 1]);
    }
  }

  lemma {:induction false} LongestIs(lines: seq<seq<Byte>>)
    ensures forall k :: 0 <= k < |lines| ==> |lines[k]| <= Longest(lines)
    ensures lines != [] ==> exists k :: 0 <= k < |lines| && |lines[k]| == Longest(lines)
    ensures lines == [] ==> Longest(lines) == 0
  {
    if lines != [] {
      var n := |lines| - 1;
      LongestIs(lines[..n]);
      if n > 0 && Longest(lines) != |lines[n]| {
        var k :| 0 <= k < n && |lines[..n][k]| == Longest(lines[..n]);
        assert |lines[k]| == Longest(lines);
      }
    }
  }

  lemma LinesAre(s: seq<Byte>)
    ensures forall k :: 0 <= k < |Lines(s)| ==> 10 !in Lines(s)[k]
    ensures Join(Lines(s)) == if s == [] || s[|s| - 1] == 10 then s else s + [10]
    ensures |Lines(s)| == Count(s, 10) + if s == [] || s[|s| - 1] == 10 then 0 else 1
  {
    LinesAreTheSplit(s);
    DoneCounts(s);
    if s != [] && s[|s| - 1] != 10 {
      assert Lines(s)[..|Done(s)|] == Done(s);
      assert Join(Done(s)) + Open(s) + [LF] == s + [10];
    } else {
      OpenIsEmpty(s);
      assert Join(Done(s)) + [] == Join(Done(s));
    }
  }

  lemma OpenIsEmpty(s: seq<Byte>)
    requires s == [] || s[|s| - 1] == 10
    ensures Open(s) == []
  {
  }

  /** The summary of a text: its length, its number of lines (one for every byte 10, and one for a rest behind the
      last), the length of its longest line, whether it ends in a byte 10, and the digests of the whole, of the first
      and of the last line. */
  lemma SummaryLaw(s: seq<Byte>, sha: seq<Byte> -> string)
    ensures var r, lines := Summarized(s, sha), Lines(s);
            r.bytes == |s| && r.lines == |lines| && r.digest == sha(s) && (r.endsWithLF <==> s != [] && s[|s| - 1] == 10) &&
            (forall k :: 0 <= k < |lines| ==> |lines[k]| <= r.maxLineBytes) &&
            (lines == [] ==> r.maxLineBytes == 0 && r.firstLine.None? && r.lastLine.None?) &&
            (lines != [] ==>
              (exists k :: 0 <= k < |lines| && |lines[k]| == r.maxLineBytes) &&
              r.firstLine == Some(sha(lines[0])) && r.lastLine == Some(sha(lines[|lines| - 1])))
  {
    hide Lines;
    LongestIs(Lines(s));
  }
}
