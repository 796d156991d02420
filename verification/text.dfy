/**
 * The Rust string operations the core relies on, written out over
 * `seq<char>`: `contains`, `starts_with`, `trim`, `lines`, `split`,
 * `split_whitespace`, `trim_matches`, `trim_start_matches`, the ASCII case
 * maps, the UTF-8 byte length `len()` and unsigned decimal parsing.
 */
module Text {
  import opened Common

  /** Rust's `char::is_whitespace`: the Unicode White_Space property. */
  predicate IsWhitespace(c: char) {
    c == ' ' || ('\t' <= c <= '\r') || c == '\U{85}' || c == '\U{A0}' || c == '\U{1680}'
    || ('\U{2000}' <= c <= '\U{200A}') || c == '\U{2028}' || c == '\U{2029}'
    || c == '\U{202F}' || c == '\U{205F}' || c == '\U{3000}'
  }

  predicate IsAsciiDigit(c: char) { '0' <= c <= '9' }
  predicate IsAsciiLower(c: char) { 'a' <= c <= 'z' }
  predicate IsAsciiUpper(c: char) { 'A' <= c <= 'Z' }
  predicate IsAsciiAlphanumeric(c: char) { IsAsciiDigit(c) || IsAsciiLower(c) || IsAsciiUpper(c) }

  predicate StartsWith(s: string, p: string) { |p| <= |s| && s[..|p|] == p }
  predicate EndsWith(s: string, p: string) { |p| <= |s| && s[|s| - |p|..] == p }

  /** `s.contains(t)`: `t` occurs somewhere in `s` as a contiguous block. */
  predicate Contains(s: string, t: string)
    decreases |s|
  {
    StartsWith(s, t) || (|s| > 0 && Contains(s[1..], t))
  }

  /** `t` occurs in `s` starting at offset `i`. */
  predicate OccursAt(s: string, t: string, i: int) {
    0 <= i && i + |t| <= |s| && s[i..i + |t|] == t
  }

  /** The recursive `Contains` agrees with the occurrence-at-an-offset reading. */
  lemma {:induction false} ContainsAt(s: string, t: string)
    ensures Contains(s, t) <==> exists i :: OccursAt(s, t, i)
    decreases |s|
  {
    if StartsWith(s, t) {
      assert OccursAt(s, t, 0);
    } else if |s| == 0 {
    } else {
      forall i | OccursAt(s, t, i) && i > 0
        ensures OccursAt(s[1..], t, i - 1)
      {
        SliceOfTail(s, i, i + |t|);
      }
      ContainsAt(s[1..], t);
      if Contains(s[1..], t) {
        var i :| OccursAt(s[1..], t, i);
        SliceOfTail(s, i + 1, i + 1 + |t|);
        assert OccursAt(s, t, i + 1);
      }
    }
  }

  /** A slice of the tail is the slice of the whole shifted by one. */
  lemma SliceOfTail(s: string, i: int, j: int)
    requires 1 <= i <= j <= |s|
    ensures s[1..][i - 1..j - 1] == s[i..j]
  {
    assert forall k :: 0 <= k < j - i ==> s[1..][i - 1..j - 1][k] == s[i..j][k];
  }

  /** The block `t` placed anywhere inside a string is found by `Contains`. */
  lemma ContainsInfix(a: string, t: string, b: string)
    ensures Contains(a + t + b, t)
  {
    var s := a + t + b;
    assert s[|a|..|a| + |t|] == t;
    assert OccursAt(s, t, |a|);
    ContainsAt(s, t);
  }

  /** `trim_start`: drops leading White_Space characters. */
  function TrimStart(s: string): (r: string)
    ensures |r| <= |s| && r == s[|s| - |r|..]
    ensures r == [] || !IsWhitespace(r[0])
    ensures forall i :: 0 <= i < |s| - |r| ==> IsWhitespace(s[i])
    decreases |s|
  {
    if |s| > 0 && IsWhitespace(s[0]) then TrimStart(s[1..]) else s
  }

  /** `trim_end`: drops trailing White_Space characters. */
  function TrimEnd(s: string): (r: string)
    ensures |r| <= |s| && r == s[..|r|]
    ensures r == [] || !IsWhitespace(r[|r| - 1])
    ensures forall i :: |r| <= i < |s| ==> IsWhitespace(s[i])
    decreases |s|
  {
    if |s| > 0 && IsWhitespace(s[|s| - 1]) then TrimEnd(s[..|s| - 1]) else s
  }

  /** `trim`: drops White_Space at both ends. */
  function Trim(s: string): (r: string)
    ensures |r| <= |s|
    ensures r == [] || (!IsWhitespace(r[0]) && !IsWhitespace(r[|r| - 1]))
  {
    TrimEnd(TrimStart(s))
  }

  /** A string with no White_Space at either end is its own trim. */
  lemma TrimOfTrimmed(s: string)
    requires s == [] || (!IsWhitespace(s[0]) && !IsWhitespace(s[|s| - 1]))
    ensures Trim(s) == s
  {
  }

  /** `trim_matches(c)`: drops every leading and trailing `c`. */
  function TrimMatches(s: string, c: char): (r: string)
    ensures |r| <= |s|
    ensures r == [] || (r[0] != c && r[|r| - 1] != c)
    decreases |s|
  {
    if |s| > 0 && s[0] == c then TrimMatches(s[1..], c)
    else if |s| > 0 && s[|s| - 1] == c then TrimMatches(s[..|s| - 1], c)
    else s
  }

  /** `trim_start_matches(p)`: strips the prefix `p` as many times as it occurs. */
  function TrimStartMatches(s: string, p: string): (r: string)
    ensures |r| <= |s| && r == s[|s| - |r|..]
    ensures |p| > 0 ==> !StartsWith(r, p)
    decreases |s|
  {
    if |p| > 0 && StartsWith(s, p) then TrimStartMatches(s[|p|..], p) else s
  }

  /** Index of the first `c` in `s`, or `|s|` when there is none. */
  function IndexOf(s: string, c: char): (k: nat)
    ensures k <= |s|
    ensures k < |s| ==> s[k] == c
    ensures forall i :: 0 <= i < k ==> s[i] != c
    decreases |s|
  {
    if |s| == 0 then 0 else if s[0] == c then 0 else 1 + IndexOf(s[1..], c)
  }

  /** `split(c)`: the pieces between occurrences of `c`; never empty. */
  function Split(s: string, c: char): (r: seq<string>)
    ensures |r| >= 1
    ensures forall i :: 0 <= i < |r| ==> c !in r[i]
    decreases |s|
  {
    var k := IndexOf(s, c);
    if k == |s| then [s] else [s[..k]] + Split(s[k + 1..], c)
  }

  /** `parts.join(sep)`. */
  function Join(parts: seq<string>, sep: string): string
    decreases |parts|
  {
    if |parts| == 0 then ""
    else if |parts| == 1 then parts[0]
    else parts[0] + sep + Join(parts[1..], sep)
  }

  /** The first `c` in `a + [c] + b` is the one after `a` when `a` has none. */
  lemma {:induction false} IndexOfAfter(a: string, c: char, b: string)
    requires c !in a
    ensures IndexOf(a + [c] + b, c) == |a|
    decreases |a|
  {
    if |a| > 0 {
      assert (a + [c] + b)[1..] == a[1..] + [c] + b;
      IndexOfAfter(a[1..], c, b);
    }
  }

  /** Appending a separator and a separator-free piece appends exactly that piece to the split. */
  lemma {:induction false} SplitAppend(s: string, c: char, b: string)
    requires c !in b
    ensures Split(s + [c] + b, c) == Split(s, c) + [b]
    decreases |s|
  {
    var k := IndexOf(s, c);
    if k == |s| {
      assert c !in s;
      SplitAppendLast(s, c, b);
    } else {
      SplitAppend(s[k + 1..], c, b);
      SplitAppendStep(s, c, b);
    }
  }

  /** The step of `SplitAppend` past the first separator of `s`. */
  lemma SplitAppendStep(s: string, c: char, b: string)
    requires IndexOf(s, c) < |s|
    requires Split(s[IndexOf(s, c) + 1..] + [c] + b, c) == Split(s[IndexOf(s, c) + 1..], c) + [b]
    ensures Split(s + [c] + b, c) == Split(s, c) + [b]
  {
    var k := IndexOf(s, c);
    SplitOfAppended(s, c, b);
    SplitAt(s, c);
    ConsSnoc(s[..k], Split(s[k + 1..], c), b);
  }

  /** Appending after a string that holds the separator leaves its first piece alone. */
  lemma SplitOfAppended(s: string, c: char, b: string)
    requires IndexOf(s, c) < |s|
    ensures Split(s + [c] + b, c) == [s[..IndexOf(s, c)]] + Split(s[IndexOf(s, c) + 1..] + [c] + b, c)
  {
    var k := IndexOf(s, c);
    SeparatorThenTail(s, c, b);
    SeparatorThenTail(s[k + 1..], c, b);
    SplitOfPrefixed(s, c, [c] + b);
  }

  lemma SeparatorThenTail(s: string, c: char, b: string)
    ensures s + [c] + b == s + ([c] + b)
  {
  }

  /** Any tail after a string that holds the separator leaves its first piece alone. */
  lemma SplitOfPrefixed(s: string, c: char, tail: string)
    requires IndexOf(s, c) < |s|
    ensures Split(s + tail, c) == [s[..IndexOf(s, c)]] + Split(s[IndexOf(s, c) + 1..] + tail, c)
  {
    var k := IndexOf(s, c);
    IndexOfPrefix(s, c, tail);
    SlicesOfPrefixed(s, tail, k);
    SplitAt(s + tail, c);
  }

  /** Slicing `s + tail` around a position inside `s`. */
  lemma SlicesOfPrefixed(s: string, tail: string, k: nat)
    requires k < |s|
    ensures (s + tail)[..k] == s[..k] && (s + tail)[k + 1..] == s[k + 1..] + tail
  {
  }

  lemma ConsSnoc(x: string, a: seq<string>, b: string)
    ensures [x] + (a + [b]) == ([x] + a) + [b]
  {
  }

  /** The first piece of a split, when there is a separator. */
  lemma SplitAt(s: string, c: char)
    requires IndexOf(s, c) < |s|
    ensures Split(s, c) == [s[..IndexOf(s, c)]] + Split(s[IndexOf(s, c) + 1..], c)
  {
  }

  /** With no separator in either part, the split gives back exactly the two parts. */
  lemma SplitAppendLast(s: string, c: char, b: string)
    requires c !in s && c !in b
    ensures Split(s + [c] + b, c) == [s, b]
  {
    var t := s + [c] + b;
    assert IndexOf(b, c) == |b|;
    IndexOfAfter(s, c, b);
    assert t[..|s|] == s && t[|s| + 1..] == b;
  }

  /** An occurrence in `s` is found before anything appended to it. */
  lemma {:induction false} IndexOfPrefix(s: string, c: char, tail: string)
    requires IndexOf(s, c) < |s|
    ensures IndexOf(s + tail, c) == IndexOf(s, c)
    decreases |s|
  {
    if s[0] != c {
      assert (s + tail)[1..] == s[1..] + tail;
      IndexOfPrefix(s[1..], c, tail);
    }
  }

  /** A string holding the separator splits into at least two pieces. */
  lemma SplitHasSecondPiece(s: string, c: char)
    requires c in s
    ensures |Split(s, c)| >= 2
  {
    var k := IndexOf(s, c);
    assert k < |s|;
  }

  /** The other direction of the round trip: splitting a join on a separator the pieces avoid gives the pieces back. */
  lemma {:induction false} SplitJoin(parts: seq<string>, c: char)
    requires |parts| >= 1
    requires forall i :: 0 <= i < |parts| ==> c !in parts[i]
    ensures Split(Join(parts, [c]), c) == parts
    decreases |parts|
  {
    if |parts| == 1 {
      assert IndexOf(parts[0], c) == |parts[0]|;
    } else {
      var rest := Join(parts[1..], [c]);
      assert Join(parts, [c]) == parts[0] + [c] + rest;
      IndexOfAfter(parts[0], c, rest);
      assert (parts[0] + [c] + rest)[..|parts[0]|] == parts[0];
      assert (parts[0] + [c] + rest)[|parts[0]| + 1..] == rest;
      SplitJoin(parts[1..], c);
    }
  }

  /** `lines()`: split on `\n`, a `\r` before the `\n` is dropped, no final empty line. */
  function Lines(s: string): seq<string>
    decreases |s|
  {
    if s == [] then []
    else
      var k := IndexOf(s, '\n');
      if k == |s| then [s]
      else [DropCarriageReturn(s[..k])] + Lines(s[k + 1..])
  }

  function DropCarriageReturn(line: string): string {
    if |line| > 0 && line[|line| - 1] == '\r' then line[..|line| - 1] else line
  }

  /** No line produced by `Lines` contains a line feed. */
  lemma {:induction false} LinesHaveNoNewline(s: string)
    ensures forall i :: 0 <= i < |Lines(s)| ==> '\n' !in Lines(s)[i]
    decreases |s|
  {
    if s != [] {
      var k := IndexOf(s, '\n');
      if k < |s| {
        LinesHaveNoNewline(s[k + 1..]);
        assert '\n' !in s[..k];
      }
    }
  }

  /** Index of the first White_Space character, or `|s|`. */
  function IndexOfWhitespace(s: string): (k: nat)
    ensures k <= |s|
    ensures k < |s| ==> IsWhitespace(s[k])
    ensures forall i :: 0 <= i < k ==> !IsWhitespace(s[i])
    decreases |s|
  {
    if |s| == 0 then 0 else if IsWhitespace(s[0]) then 0 else 1 + IndexOfWhitespace(s[1..])
  }

  /** A token of `split_whitespace`: non-empty, free of White_Space. */
  predicate IsToken(w: string) {
    |w| > 0 && forall j :: 0 <= j < |w| ==> !IsWhitespace(w[j])
  }

  /** `split_whitespace()`: maximal runs of non-White_Space characters. */
  function SplitWhitespace(s: string): (r: seq<string>)
    ensures forall i :: 0 <= i < |r| ==> IsToken(r[i])
    decreases |s|
  {
    if |s| == 0 then []
    else if IsWhitespace(s[0]) then SplitWhitespace(s[1..])
    else
      var k := IndexOfWhitespace(s);
      assert k != 0;
      assert forall j :: 0 <= j < k ==> s[..k][j] == s[j];
      [s[..k]] + SplitWhitespace(s[k..])
  }

  /** `to_ascii_lowercase` of one character. */
  function LowerChar(c: char): char {
    if IsAsciiUpper(c) then (c as int + 32) as char else c
  }

  /** `to_ascii_uppercase` of one character. */
  function UpperChar(c: char): char {
    if IsAsciiLower(c) then (c as int - 32) as char else c
  }

  function ToLower(s: string): (r: string)
    ensures |r| == |s|
    ensures forall i :: 0 <= i < |s| ==> r[i] == LowerChar(s[i])
  {
    seq(|s|, i requires 0 <= i < |s| => LowerChar(s[i]))
  }

  function ToUpper(s: string): (r: string)
    ensures |r| == |s|
    ensures forall i :: 0 <= i < |s| ==> r[i] == UpperChar(s[i])
  {
    seq(|s|, i requires 0 <= i < |s| => UpperChar(s[i]))
  }

  /** Number of bytes of `c` in UTF-8. */
  function Utf8Width(c: char): nat {
    if c as int < 0x80 then 1 else if c as int < 0x800 then 2 else if c as int < 0x1_0000 then 3 else 4
  }

  /** `str::len()`: the UTF-8 byte length, not the number of characters. */
  function Utf8Len(s: string): nat
    decreases |s|
  {
    if |s| == 0 then 0 else Utf8Width(s[0]) + Utf8Len(s[1..])
  }

  /** The byte length is at least the character count, and equal to it on ASCII text. */
  lemma {:induction false} Utf8LenBounds(s: string)
    ensures Utf8Len(s) >= |s|
    ensures (forall i :: 0 <= i < |s| ==> s[i] as int < 0x80) ==> Utf8Len(s) == |s|
    decreases |s|
  {
    if |s| > 0 {
      Utf8LenBounds(s[1..]);
    }
  }

  predicate AllDigits(s: string) { forall i :: 0 <= i < |s| ==> IsAsciiDigit(s[i]) }

  /** Value of a string of decimal digits, most significant first. */
  function DigitsValue(s: string): nat
    requires AllDigits(s)
    decreases |s|
  {
    if |s| == 0 then 0 else 10 * DigitsValue(s[..|s| - 1]) + (s[|s| - 1] as int - '0' as int)
  }

  /**
   * `str::parse::<uN>()` with `limit == 2^N`: an optional `+`, then one or more
   * decimal digits whose value is below `limit`; anything else is an error.
   */
  function ParseUnsigned(s: string, limit: nat): (r: Option<nat>)
    ensures r.Some? ==> r.value < limit
    ensures r.Some? ==> exists d :: (s == d || s == "+" + d) && |d| > 0 && AllDigits(d)
  {
    var d := if |s| > 0 && s[0] == '+' then s[1..] else s;
    if d == [] || !AllDigits(d) then None
    else
      var v := DigitsValue(d);
      assert s == d || s == "+" + d;
      if v < limit then Some(v) else None
  }

  const U16Limit: nat := 0x1_0000
  const U32Limit: nat := 0x1_0000_0000

  /** Decimal rendering of a natural number, as Rust's `Display` for unsigned integers. */
  function ShowNat(n: nat): (r: string)
    ensures |r| > 0 && AllDigits(r)
    decreases n
  {
    if n < 10 then [('0' as int + n) as char] else ShowNat(n / 10) + [('0' as int + n % 10) as char]
  }

  /** Parsing the decimal rendering of a value in range yields the value back. */
  lemma {:induction false} ParseShowNat(n: nat, limit: nat)
    requires n < limit
    ensures ParseUnsigned(ShowNat(n), limit) == Some(n)
  {
    DigitsShowNat(n);
  }

  lemma {:induction false} DigitsShowNat(n: nat)
    ensures DigitsValue(ShowNat(n)) == n
    decreases n
  {
    if n >= 10 {
      var s := ShowNat(n);
      DigitsShowNat(n / 10);
      assert s[..|s| - 1] == ShowNat(n / 10);
    }
  }
}
