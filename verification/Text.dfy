/** ASCII text helpers shared by the models.

    A `string` stands for the bytes of a Rust string, one character per byte.
    Characters outside ASCII belong to none of the classes below, which is how
    the source treats bytes above 127. */
module Text {

  datatype Option<+T> = None | Some(value: T)

  predicate IsUpper(c: char) { 'A' <= c <= 'Z' }

  predicate IsLower(c: char) { 'a' <= c <= 'z' }

  predicate IsAlpha(c: char) { IsUpper(c) || IsLower(c) }

  predicate IsDigit(c: char) { '0' <= c <= '9' }

  predicate IsAlnum(c: char) { IsAlpha(c) || IsDigit(c) }

  /** Rust's `char::is_whitespace`, restricted to ASCII: it includes vertical tab. */
  predicate IsSpace(c: char) { c == ' ' || 9 as char <= c <= 13 as char }

  function UpperChar(c: char): char { if IsLower(c) then c - 'a' + 'A' else c }

  function LowerChar(c: char): char { if IsUpper(c) then c - 'A' + 'a' else c }

  /** The character classes by their ASCII codes, and the distance between the two cases. */
  lemma CharacterCodes(c: char)
    ensures IsSpace(c) <==> c as int in {9, 10, 11, 12, 13, 32}
    ensures IsUpper(c) <==> 65 <= c as int <= 90
    ensures IsLower(c) <==> 97 <= c as int <= 122
    ensures IsDigit(c) <==> 48 <= c as int <= 57
    ensures UpperChar(c) as int == c as int - (if 97 <= c as int <= 122 then 32 else 0)
    ensures LowerChar(c) as int == c as int + (if 65 <= c as int <= 90 then 32 else 0)
  {
  }

  function Upper(s: string): (r: string)
    ensures |r| == |s|
    ensures forall i :: 0 <= i < |s| ==> r[i] == UpperChar(s[i])
  {
    seq(|s|, i requires 0 <= i < |s| => UpperChar(s[i]))
  }

  function Lower(s: string): (r: string)
    ensures |r| == |s|
    ensures forall i :: 0 <= i < |s| ==> r[i] == LowerChar(s[i])
  {
    seq(|s|, i requires 0 <= i < |s| => LowerChar(s[i]))
  }

  predicate EqIgnoreCase(a: string, b: string) { Lower(a) == Lower(b) }

  predicate OccursAt(s: string, i: nat, part: string) {
    i + |part| <= |s| && s[i..i + |part|] == part
  }

  predicate Contains(s: string, part: string) {
    exists i: nat :: i <= |s| && OccursAt(s, i, part)
  }

  predicate AllSpace(s: string) { forall i :: 0 <= i < |s| ==> IsSpace(s[i]) }

  function TrimStart(s: string): (r: string)
    ensures |r| <= |s|
    ensures r == [] || !IsSpace(r[0])
  {
    if s != [] && IsSpace(s[0]) then TrimStart(s[1..]) else s
  }

  function TrimEnd(s: string): (r: string)
    ensures |r| <= |s|
    ensures r == [] || !IsSpace(r[|r| - 1])
  {
    if s != [] && IsSpace(s[|s| - 1]) then TrimEnd(s[..|s| - 1]) else s
  }

  function Trim(s: string): (r: string) { TrimEnd(TrimStart(s)) }

  lemma {:induction false} TrimStartDropsSpaces(lead: string, s: string)
    requires AllSpace(lead)
    requires s == [] || !IsSpace(s[0])
    ensures TrimStart(lead + s) == s
  {
    if lead == [] {
      assert lead + s == s;
    } else {
      assert (lead + s)[1..] == lead[1..] + s;
      TrimStartDropsSpaces(lead[1..], s);
    }
  }

  lemma {:induction false} TrimEndDropsSpaces(s: string, trail: string)
    requires AllSpace(trail)
    requires s == [] || !IsSpace(s[|s| - 1])
    ensures TrimEnd(s + trail) == s
  {
    if trail == [] {
      assert s + trail == s;
    } else {
      var n := |trail| - 1;
      assert (s + trail)[..|s + trail| - 1] == s + trail[..n];
      assert (s + trail)[|s + trail| - 1] == trail[n];
      TrimEndDropsSpaces(s, trail[..n]);
    }
  }

  lemma {:induction false} TrimStartSplits(s: string) returns (lead: string)
    ensures AllSpace(lead) && s == lead + TrimStart(s)
  {
    if s != "" && IsSpace(s[0]) {
      lead := TrimStartSplits(s[1..]);
      lead := [s[0]] + lead;
    } else {
      lead := "";
    }
  }

  lemma {:induction false} TrimEndCuts(s: string)
    ensures TrimEnd(s) == s[..|TrimEnd(s)|] && AllSpace(s[|TrimEnd(s)|..])
  {
    if s != "" && IsSpace(s[|s| - 1]) {
      var n, k := |s| - 1, |TrimEnd(s)|;
      TrimEndCuts(s[..n]);
      assert s[..n][..k] == s[..k];
      assert s[k..] == s[..n][k..] + [s[n]];
    }
  }

  lemma TrimSplits(s: string) returns (lead: string, trail: string)
    ensures AllSpace(lead) && AllSpace(trail) && s == lead + Trim(s) + trail
  {
    lead := TrimStartSplits(s);
    var t := TrimStart(s);
    TrimEndCuts(t);
    trail := t[|Trim(s)|..];
    assert t == Trim(s) + trail;
    assert s == lead + (Trim(s) + trail);
  }

  /** Trimming takes off exactly the white space at both ends. */
  lemma TrimOf(lead: string, w: string, trail: string)
    requires AllSpace(lead) && AllSpace(trail) && (w == "" || (!IsSpace(w[0]) && !IsSpace(w[|w| - 1])))
    ensures Trim(lead + w + trail) == w
  {
    hide TrimStart, TrimEnd;
    if w == "" {
      TrimStartDropsSpaces(lead + trail, "");
      TrimEndDropsSpaces("", "");
      assert lead + w + trail == lead + trail + "" && "" + "" == "";
    } else {
      TrimStartDropsSpaces(lead, w + trail);
      TrimEndDropsSpaces(w, trail);
      assert lead + w + trail == lead + (w + trail);
    }
  }

  /** The text is the word, in any case, with white space around it. */
  ghost predicate Says(s: string, word: string) {
    exists lead, w, trail :: s == lead + w + trail && AllSpace(lead) && AllSpace(trail) && |w| == |word| &&
      forall i :: 0 <= i < |w| ==> SameLetter(w[i], word[i])
  }

  /** Equal, or a capital letter and the small one 32 codes further on. */
  predicate SameLetter(c: char, small: char) {
    c == small || ('A' <= c <= 'Z' && c as int + 32 == small as int)
  }

  predicate IsSmallWord(word: string) {
    word != "" && !IsSpace(word[0]) && !IsSpace(word[|word| - 1]) && forall i :: 0 <= i < |word| ==> !('A' <= word[i] <= 'Z')
  }

  lemma SmallWords(w: string, word: string)
    requires IsSmallWord(word)
    ensures Lower(w) == word <==> |w| == |word| && forall i :: 0 <= i < |w| ==> SameLetter(w[i], word[i])
  {
    if |w| == |word| && forall i :: 0 <= i < |w| ==> SameLetter(w[i], word[i]) {
      assert forall i :: 0 <= i < |w| ==> Lower(w)[i] == word[i];
    }
  }

  lemma SaysIs(s: string, word: string)
    requires IsSmallWord(word)
    ensures Says(s, word) <==> Lower(Trim(s)) == word
  {
    hide TrimStart, TrimEnd, Lower;
    if Says(s, word) {
      var lead, w, trail :| s == lead + w + trail && AllSpace(lead) && AllSpace(trail) && |w| == |word| &&
        forall i :: 0 <= i < |w| ==> SameLetter(w[i], word[i]);
      SmallWords(w, word);
      TrimOf(lead, w, trail);
    }
    if Lower(Trim(s)) == word {
      var lead, trail := TrimSplits(s);
      SmallWords(Trim(s), word);
    }
  }

  lemma SliceRight(x: string, y: string, i: nat, j: nat)
    requires i <= j <= |y|
    ensures (x + y)[|x| + i..|x| + j] == y[i..j]
  {
  }

  // ---------------------------------------------------------------- decimal numbers

  function Digit(n: nat): char
    requires n < 10
  {
    '0' + n as char
  }

  function Decimal(n: nat): (s: string)
    ensures s != "" && forall i :: 0 <= i < |s| ==> IsDigit(s[i])
  {
    if n < 10 then [Digit(n)] else Decimal(n / 10) + [Digit(n % 10)]
  }

  function DigitValue(c: char): nat
    requires IsDigit(c)
  {
    (c - '0') as int
  }

  function ValueOf(s: string): nat
    requires forall i :: 0 <= i < |s| ==> IsDigit(s[i])
  {
    if s == "" then 0 else 10 * ValueOf(s[..|s| - 1]) + DigitValue(s[|s| - 1])
  }

  /** Reading a decimal back gives the number, so different numbers are written differently. */
  lemma {:induction false} DecimalRoundTrip(n: nat)
    ensures ValueOf(Decimal(n)) == n
  {
    var s := Decimal(n);
    if n < 10 {
      assert s[..0] == "" && ValueOf("") == 0;
    } else {
      DecimalRoundTrip(n / 10);
      assert s[..|s| - 1] == Decimal(n / 10);
    }
  }
}
