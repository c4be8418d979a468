/**
 * The `&str` operations the firmware's parsers are built from, with the
 * semantics of Rust's standard library: `find`, `contains`, `strip_prefix`,
 * `split_once`, `split`, `trim`, `trim_matches`, the decimal `Display` of an
 * integer and `u16::from_str`.  Strings are sequences of Unicode scalar values.
 */
module RustStr {
  import opened Wrappers

  /** `char::is_whitespace`: the Unicode White_Space property. */
  predicate IsWhitespace(c: char) {
    ('\U{9}' <= c <= '\U{D}') || c == ' ' || c == '\U{85}' || c == '\U{A0}' ||
    c == '\U{1680}' || ('\U{2000}' <= c <= '\U{200A}') || c == '\U{2028}' ||
    c == '\U{2029}' || c == '\U{202F}' || c == '\U{205F}' || c == '\U{3000}'
  }

  predicate StartsWith(s: string, p: string) {
    |p| <= |s| && s[..|p|] == p
  }

  /** `s.strip_prefix(p)` */
  function StripPrefix(s: string, p: string): (r: Option<string>)
    ensures r.Some? <==> StartsWith(s, p)
    ensures r.Some? ==> s == p + r.value
  {
    if StartsWith(s, p) then Some(s[|p|..]) else None
  }

  /** `pat` occurs in `s` starting at index `i`. */
  predicate OccursAt(s: string, pat: string, i: nat) {
    i + |pat| <= |s| && s[i..i + |pat|] == pat
  }

  function FindFrom(s: string, pat: string, from: nat): (r: Option<nat>)
    requires from <= |s| + 1
    ensures r.Some? ==> from <= r.value && OccursAt(s, pat, r.value)
    ensures r.Some? ==> forall j :: from <= j < r.value ==> !OccursAt(s, pat, j)
    ensures r.None? ==> forall j :: from <= j ==> !OccursAt(s, pat, j)
    decreases |s| + 1 - from
  {
    if from + |pat| > |s| then None
    else if s[from..from + |pat|] == pat then Some(from)
    else FindFrom(s, pat, from + 1)
  }

  /** `s.find(pat)`: the index of the first occurrence. */
  function Find(s: string, pat: string): (r: Option<nat>)
    ensures r.Some? ==> OccursAt(s, pat, r.value)
    ensures r.Some? ==> forall j :: 0 <= j < r.value ==> !OccursAt(s, pat, j)
    ensures r.None? <==> forall j :: 0 <= j ==> !OccursAt(s, pat, j)
  {
    FindFrom(s, pat, 0)
  }

  /** `s.contains(pat)` */
  predicate Contains(s: string, pat: string) {
    Find(s, pat).Some?
  }

  /** `s.split_once(pat)`: the text before and after the first occurrence. */
  function SplitOnce(s: string, pat: string): (r: Option<(string, string)>)
    ensures r.Some? <==> Contains(s, pat)
    ensures r.Some? ==> s == r.value.0 + pat + r.value.1
    ensures r.Some? ==> Find(s, pat) == Some(|r.value.0|)
  {
    match Find(s, pat)
    case None => None
    case Some(i) =>
      assert s == s[..i] + pat + s[i + |pat|..];
      Some((s[..i], s[i + |pat|..]))
  }

  /** The one-character strings of `s`, in order. */
  function Chars(s: string): (r: seq<string>)
    ensures |r| == |s|
    ensures forall i :: 0 <= i < |s| ==> r[i] == [s[i]]
  {
    seq(|s|, i requires 0 <= i < |s| => [s[i]])
  }

  /**
   * `s.split(pat)` collected: the pieces between successive non-overlapping
   * occurrences found left to right.  The empty pattern matches at every
   * boundary between characters, so it yields "", every character, and "".
   */
  function Split(s: string, pat: string): (r: seq<string>)
    ensures |r| >= 1
    decreases |s|
  {
    if pat == [] then [""] + Chars(s) + [""]
    else
      match Find(s, pat)
      case None => [s]
      case Some(i) => [s[..i]] + Split(s[i + |pat|..], pat)
  }

  /** The pieces glued back together with `sep` between them. */
  function Join(ps: seq<string>, sep: string): string
    requires |ps| >= 1
  {
    if |ps| == 1 then ps[0] else ps[0] + sep + Join(ps[1..], sep)
  }

  /** `sep` does not start anywhere inside `piece` when `piece` is followed by `sep`. */
  predicate SeparatorFree(piece: string, sep: string) {
    forall j :: 0 <= j < |piece| ==> !OccursAt(piece + sep, sep, j)
  }

  /** `split_once` at a separator that does not occur earlier. */
  lemma SplitOnceFirst(p: string, sep: string, rest: string)
    requires |sep| > 0 && SeparatorFree(p, sep)
    ensures SplitOnce(p + sep + rest, sep) == Some((p, rest))
  {
    var s := p + sep + rest;
    assert OccursAt(s, sep, |p|) by { assert s[|p|..|p| + |sep|] == sep; }
    forall j | 0 <= j < |p| ensures !OccursAt(s, sep, j) {
      assert (p + sep)[j..j + |sep|] == s[j..j + |sep|];
      assert !OccursAt(p + sep, sep, j);
    }
    assert Find(s, sep) == Some(|p|);
    assert s[..|p|] == p;
    assert s[|p| + |sep|..] == rest;
  }

  /** A piece none of whose characters starts the separator is separator-free. */
  lemma NoLeadSeparatorFree(p: string, sep: string)
    requires |sep| > 0 && forall i :: 0 <= i < |p| ==> p[i] != sep[0]
    ensures SeparatorFree(p, sep)
  {
    forall j | 0 <= j < |p| ensures !OccursAt(p + sep, sep, j) {
      assert (p + sep)[j] == p[j];
    }
  }

  /** A string without the character `c` does not contain the one-character pattern. */
  lemma NoCharNotContains(s: string, c: char)
    requires forall i :: 0 <= i < |s| ==> s[i] != c
    ensures !Contains(s, [c])
  {
    forall j | 0 <= j ensures !OccursAt(s, [c], j) {
      if j < |s| {
        assert s[j] != c;
      }
    }
  }

  /** Splitting on a pattern that does not occur gives the whole string. */
  lemma SplitAbsent(s: string, pat: string)
    requires |pat| > 0 && !Contains(s, pat)
    ensures Split(s, pat) == [s]
  {
  }

  /** The text before the first occurrence of a nonempty pattern does not contain it. */
  lemma SplitOnceBeforeFree(s: string, pat: string)
    requires |pat| > 0 && Contains(s, pat)
    ensures !Contains(SplitOnce(s, pat).value.0, pat)
  {
    var before := SplitOnce(s, pat).value.0;
    forall j | 0 <= j ensures !OccursAt(before, pat, j) {
      if j + |pat| <= |before| {
        assert before == s[..|before|];
        assert before[j..j + |pat|] == s[j..j + |pat|];
        assert !OccursAt(s, pat, j);
      }
    }
  }

  /** An occurrence in a prefix is an occurrence in the whole. */
  lemma ContainsPrefix(a: string, b: string, pat: string)
    requires Contains(a, pat)
    ensures Contains(a + b, pat)
  {
    var j := Find(a, pat).value;
    assert (a + b)[j..j + |pat|] == a[j..j + |pat|];
    assert OccursAt(a + b, pat, j);
  }

  /** Splitting a joined sequence gives back its pieces when no separator hides in them. */
  lemma {:induction false} SplitJoin(ps: seq<string>, sep: string)
    requires |sep| > 0 && |ps| >= 1
    requires forall i :: 0 <= i < |ps| - 1 ==> SeparatorFree(ps[i], sep)
    requires !Contains(ps[|ps| - 1], sep)
    ensures Split(Join(ps, sep), sep) == ps
  {
    if |ps| > 1 {
      var p, rest := ps[0], Join(ps[1..], sep);
      assert SeparatorFree(ps[0], sep);
      SplitOnceFirst(p, sep, rest);
      var s := p + sep + rest;
      assert s[..|p|] == p;
      assert s[|p| + |sep|..] == rest;
      SplitJoin(ps[1..], sep);
    }
  }

  function TrimStart(s: string): (r: string)
    ensures |r| <= |s|
    ensures r == [] || !IsWhitespace(r[0])
  {
    if |s| > 0 && IsWhitespace(s[0]) then TrimStart(s[1..]) else s
  }

  function TrimEnd(s: string): (r: string)
    ensures |r| <= |s|
    ensures r == [] || !IsWhitespace(r[|r| - 1])
  {
    if |s| > 0 && IsWhitespace(s[|s| - 1]) then TrimEnd(s[..|s| - 1]) else s
  }

  /** `trim_end` keeps a prefix of its input. */
  lemma {:induction false} TrimEndPrefix(s: string)
    ensures s[..|TrimEnd(s)|] == TrimEnd(s)
    decreases |s|
  {
    if |s| > 0 && IsWhitespace(s[|s| - 1]) {
      TrimEndPrefix(s[..|s| - 1]);
      assert s[..|s| - 1][..|TrimEnd(s)|] == s[..|TrimEnd(s)|];
    }
  }

  /** `s.trim()`: leading and trailing whitespace removed. */
  function Trim(s: string): string {
    TrimEnd(TrimStart(s))
  }

  /** `s.trim_matches(c)`: every leading and trailing `c` removed. */
  function TrimMatches(s: string, c: char): (r: string)
    ensures r == [] || (r[0] != c && r[|r| - 1] != c)
    decreases |s|
  {
    if |s| > 0 && s[0] == c then TrimMatches(s[1..], c)
    else if |s| > 0 && s[|s| - 1] == c then TrimMatches(s[..|s| - 1], c)
    else s
  }

  lemma {:induction false} TrimUnchanged(s: string)
    requires s == [] || (!IsWhitespace(s[0]) && !IsWhitespace(s[|s| - 1]))
    ensures Trim(s) == s
  {
  }

  lemma TrimMatchesUnchanged(s: string, c: char)
    requires s == [] || (s[0] != c && s[|s| - 1] != c)
    ensures TrimMatches(s, c) == s
  {
  }

  /** The index of the first piece that starts with `prefix` once trimmed. */
  function FirstWithPrefix(pieces: seq<string>, prefix: string, from: nat): (r: Option<nat>)
    requires from <= |pieces|
    ensures r.Some? ==> from <= r.value < |pieces| && StartsWith(Trim(pieces[r.value]), prefix)
    ensures r.Some? ==> forall j :: from <= j < r.value ==> !StartsWith(Trim(pieces[j]), prefix)
    ensures r.None? ==> forall j :: from <= j < |pieces| ==> !StartsWith(Trim(pieces[j]), prefix)
    decreases |pieces| - from
  {
    if from == |pieces| then None
    else if StartsWith(Trim(pieces[from]), prefix) then Some(from)
    else FirstWithPrefix(pieces, prefix, from + 1)
  }

  /**
   * `pieces.iter().find_map(|p| p.trim().strip_prefix(prefix))`: the rest of
   * the first trimmed piece that starts with `prefix`.
   */
  function FindMapStripPrefix(pieces: seq<string>, prefix: string): (r: Option<string>)
    ensures r.None? <==> forall i :: 0 <= i < |pieces| ==> !StartsWith(Trim(pieces[i]), prefix)
  {
    match FirstWithPrefix(pieces, prefix, 0)
    case None => None
    case Some(i) => Some(Trim(pieces[i])[|prefix|..])
  }

  /** Number of bytes of a character in UTF-8. */
  function Utf8Width(c: char): nat {
    if c as int < 0x80 then 1 else if c as int < 0x800 then 2 else if c as int < 0x10000 then 3 else 4
  }

  /** Number of bytes of a string in UTF-8, the unit of heapless capacities. */
  function Utf8Len(s: string): nat {
    if s == [] then 0 else Utf8Len(s[..|s| - 1]) + Utf8Width(s[|s| - 1])
  }

  lemma {:induction false} Utf8LenConcat(a: string, b: string)
    ensures Utf8Len(a + b) == Utf8Len(a) + Utf8Len(b)
    decreases |b|
  {
    if b == [] {
      assert a + b == a;
    } else {
      assert (a + b)[..|a + b| - 1] == a + b[..|b| - 1];
      Utf8LenConcat(a, b[..|b| - 1]);
    }
  }

  /** ASCII text takes one byte per character. */
  lemma {:induction false} Utf8LenAscii(s: string)
    requires forall i :: 0 <= i < |s| ==> s[i] as int < 0x80
    ensures Utf8Len(s) == |s|
    decreases |s|
  {
    if s != [] {
      Utf8LenAscii(s[..|s| - 1]);
    }
  }

  /** A character takes at most four bytes in UTF-8. */
  lemma {:induction false} Utf8LenAtMost(s: string)
    ensures Utf8Len(s) <= 4 * |s|
    decreases |s|
  {
    if s != [] {
      Utf8LenAtMost(s[..|s| - 1]);
    }
  }

  function DigitChar(d: nat): (c: char)
    requires d < 10
  {
    ['0', '1', '2', '3', '4', '5', '6', '7', '8', '9'][d]
  }

  predicate IsDigit(c: char) { '0' <= c <= '9' }

  function DigitValue(c: char): nat
    requires IsDigit(c)
  {
    c as int - '0' as int
  }

  /** The `Display` text of a natural number: decimal, no leading zeros. */
  function NatToString(n: nat): (s: string)
    ensures |s| >= 1 && forall i :: 0 <= i < |s| ==> IsDigit(s[i])
    ensures |s| > 1 ==> s[0] != '0'
  {
    if n < 10 then [DigitChar(n)] else NatToString(n / 10) + [DigitChar(n % 10)]
  }

  /** The `Display` text of an integer: a '-' sign then the magnitude. */
  function IntToString(i: int): string {
    if i < 0 then "-" + NatToString(-i) else NatToString(i)
  }

  /** The value of a string of decimal digits, most significant first. */
  function DigitsValue(s: string): nat
    requires forall i :: 0 <= i < |s| ==> IsDigit(s[i])
  {
    if s == [] then 0 else DigitsValue(s[..|s| - 1]) * 10 + DigitValue(s[|s| - 1])
  }

  lemma {:induction false} DigitsValueOfNatToString(n: nat)
    ensures DigitsValue(NatToString(n)) == n
  {
    if n >= 10 {
      var s := NatToString(n);
      DigitsValueOfNatToString(n / 10);
      assert s[..|s| - 1] == NatToString(n / 10);
    }
  }

  /**
   * `s.parse::<u16>()`: an optional '+' then one or more decimal digits whose
   * value fits 16 bits; anything else is an error.
   */
  function ParseU16(s: string): (r: Option<nat>)
    ensures r.Some? ==> r.value < 0x1_0000
  {
    var t := if |s| > 0 && s[0] == '+' then s[1..] else s;
    if t == [] || exists i :: 0 <= i < |t| && !IsDigit(t[i]) then None
    else if DigitsValue(t) >= 0x1_0000 then None
    else Some(DigitsValue(t))
  }

  /** Round trip: a 16-bit number printed in decimal parses back to itself. */
  lemma ParseU16OfNatToString(n: nat)
    requires n < 0x1_0000
    ensures ParseU16(NatToString(n)) == Some(n)
  {
    DigitsValueOfNatToString(n);
  }
}
