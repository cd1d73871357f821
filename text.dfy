/**
 * The JavaScript string built-ins the core relies on, stated over `seq<char>`:
 * `String.prototype.trim`, `Array.prototype.join` and the decimal rendering of an
 * integer inside a template literal.
 */
module Text {
  import opened Wrappers

  // ---------------------------------------------------------------------------
  // trim()
  // ---------------------------------------------------------------------------

  /** ECMAScript WhiteSpace and LineTerminator code points, the set `trim` strips. */
  predicate IsWhitespace(c: char) {
    || c == '\t' || c == '\n' || c == '\U{000B}' || c == '\U{000C}' || c == '\r'
    || c == ' ' || c == '\U{00A0}' || c == '\U{1680}'
    || ('\U{2000}' <= c <= '\U{200A}')
    || c == '\U{2028}' || c == '\U{2029}' || c == '\U{202F}' || c == '\U{205F}'
    || c == '\U{3000}' || c == '\U{FEFF}'
  }

  predicate AllWhitespace(s: string) {
    forall i :: 0 <= i < |s| ==> IsWhitespace(s[i])
  }

  /** `s` with its leading whitespace removed: a suffix of `s` that does not start with whitespace. */
  function TrimStart(s: string): (r: string)
    ensures |r| <= |s| && r == s[|s| - |r|..]
    ensures r == [] || !IsWhitespace(r[0])
    ensures AllWhitespace(s[..|s| - |r|])
  {
    if s == [] || !IsWhitespace(s[0]) then s
    else
      var r := TrimStart(s[1..]);
      assert s[..|s| - |r|] == [s[0]] + s[1..][..|s| - 1 - |r|];
      r
  }

  /** `s` with its trailing whitespace removed: a prefix of `s` that does not end with whitespace. */
  function TrimEnd(s: string): (r: string)
    ensures |r| <= |s| && r == s[..|r|]
    ensures r == [] || !IsWhitespace(r[|r| - 1])
    ensures AllWhitespace(s[|r|..])
  {
    if s == [] || !IsWhitespace(s[|s| - 1]) then s
    else
      var r := TrimEnd(s[..|s| - 1]);
      assert s[|r|..] == s[..|s| - 1][|r|..] + [s[|s| - 1]];
      r
  }

  /**
   * `r` is what is left of `s`, starting at index `i`, once whitespace is cut from
   * both ends: `r` stands at `i` in `s`, only whitespace comes before and after it,
   * and when it is not empty it starts and ends with a non-whitespace character.
   */
  predicate TrimmedAt(s: string, i: nat, r: string) {
    && i + |r| <= |s|
    && (forall k :: 0 <= k < |r| ==> r[k] == s[i + k])
    && AllWhitespace(s[..i])
    && AllWhitespace(s[i + |r|..])
    && (r != [] ==> !IsWhitespace(r[0]) && !IsWhitespace(r[|r| - 1]))
  }

  /** `s.trim()`: the infix of `s` left after removing whitespace at both ends. */
  function Trim(s: string): (r: string)
    ensures |TrimStart(s)| <= |s|
    ensures TrimmedAt(s, |s| - |TrimStart(s)|, r)
  {
    var t := TrimStart(s);
    var r := TrimEnd(t);
    TrimEndKeepsHead(t);
    TrimmedAtSuffix(s, t, r);
    r
  }

  /**
   * A prefix `r` of a suffix `t` of `s`, where only whitespace precedes `t` in `s` and
   * follows `r` in `t`, is what is left of `s` once whitespace is cut from both ends.
   */
  lemma TrimmedAtSuffix(s: string, t: string, r: string)
    requires |t| <= |s| && t == s[|s| - |t|..] && AllWhitespace(s[..|s| - |t|])
    requires |r| <= |t| && r == t[..|r|] && AllWhitespace(t[|r|..])
    requires r != [] ==> !IsWhitespace(r[0]) && !IsWhitespace(r[|r| - 1])
    ensures TrimmedAt(s, |s| - |t|, r)
  {
    assert s[|s| - |t| + |r|..] == t[|r|..];
  }

  /**
   * There is only one way to cut whitespace from both ends: whatever `r` satisfies
   * `TrimmedAt` is `s.trim()`.
   */
  lemma TrimmedAtIsTrim(s: string, i: nat, r: string)
    requires TrimmedAt(s, i, r)
    ensures r == Trim(s)
  {
    var t := Trim(s);
    var a := |s| - |TrimStart(s)|;
    assert TrimmedAt(s, a, t);
    TrimmedAtUnique(s, i, r, a, t);
  }

  lemma TrimmedAtUnique(s: string, i: nat, r: string, j: nat, q: string)
    requires TrimmedAt(s, i, r) && TrimmedAt(s, j, q)
    ensures r == q
  {
    if r != [] && q != [] {
      assert |r| == |q|;
      assert forall k :: 0 <= k < |r| ==> r[k] == q[k];
    }
  }

  /** A string trims to nothing exactly when it is all whitespace. */
  lemma TrimBlank(s: string)
    ensures Trim(s) == [] <==> AllWhitespace(s)
  {
    TrimStartEmpty(s);
    TrimEndKeepsHead(TrimStart(s));
  }

  lemma TrimEndKeepsHead(t: string)
    requires t == [] || !IsWhitespace(t[0])
    ensures t != [] ==> TrimEnd(t) != [] && TrimEnd(t)[0] == t[0]
  {
  }

  lemma TrimStartEmpty(s: string)
    ensures TrimStart(s) == [] <==> AllWhitespace(s)
  {
    var t := TrimStart(s);
    if t == [] {
      assert s[..|s| - |t|] == s;
    }
  }

  /** Trimming an already trimmed string changes nothing. */
  lemma {:induction false} TrimIdempotent(s: string)
    ensures Trim(Trim(s)) == Trim(s)
  {
    var r := Trim(s);
    if r != [] {
      assert TrimStart(r) == r;
      assert TrimEnd(r) == r;
    }
  }

  // ---------------------------------------------------------------------------
  // Decimal rendering of integers (`${n}` for an integral number)
  // ---------------------------------------------------------------------------

  predicate IsDigit(c: char) {
    '0' <= c <= '9'
  }

  predicate AllDigits(s: string) {
    forall i :: 0 <= i < |s| ==> IsDigit(s[i])
  }

  function DigitChar(d: nat): (c: char)
    requires d < 10
    ensures IsDigit(c) && c as int - '0' as int == d
  {
    ('0' as int + d) as char
  }

  /** The value of a string of decimal digits, most significant first. */
  function DigitsValue(s: string): nat
    requires AllDigits(s)
  {
    if s == [] then 0
    else DigitsValue(s[..|s| - 1]) * 10 + (s[|s| - 1] as int - '0' as int)
  }

  /** The shortest decimal numeral of `n`: non-empty, all digits, no leading zero. */
  function NatToString(n: nat): (r: string)
    ensures r != [] && AllDigits(r)
    ensures r[0] == '0' ==> n == 0
  {
    if n < 10 then [DigitChar(n)]
    else NatToString(n / 10) + [DigitChar(n % 10)]
  }

  lemma {:induction false} NatToStringValue(n: nat)
    ensures DigitsValue(NatToString(n)) == n
  {
    if n >= 10 {
      var s := NatToString(n);
      assert s[..|s| - 1] == NatToString(n / 10);
      NatToStringValue(n / 10);
    }
  }

  /**
   * How JavaScript prints an integral number of magnitude below 10^21: an optional
   * minus sign, then the decimal numeral.
   */
  function IntToString(i: int): (r: string)
    ensures r != []
    ensures r[0] == '-' <==> i < 0
  {
    if i < 0 then "-" + NatToString(-i) else NatToString(i)
  }

  /** Reads back what `IntToString` prints; `None` for anything else. */
  function ParseInt(s: string): (r: Option<int>)
    ensures r.Some? ==> s != []
  {
    if s != [] && s[0] == '-' && |s| > 1 && AllDigits(s[1..]) then var v: int := DigitsValue(s[1..]); Some(-v)
    else if s != [] && AllDigits(s) then Some(DigitsValue(s))
    else None
  }

  /** The rendering loses nothing: the printed numeral reads back as the number. */
  lemma IntToStringRoundTrip(i: int)
    ensures ParseInt(IntToString(i)) == Some(i)
  {
    if i < 0 {
      NatToStringValue(-i);
      assert IntToString(i)[1..] == NatToString(-i);
    } else {
      NatToStringValue(i);
    }
  }

  /** Different integers print differently. */
  lemma IntToStringInjective(i: int, j: int)
    requires IntToString(i) == IntToString(j)
    ensures i == j
  {
    IntToStringRoundTrip(i);
    IntToStringRoundTrip(j);
  }

  // ---------------------------------------------------------------------------
  // join()
  // ---------------------------------------------------------------------------

  /**
   * `parts.join(sep)`: the parts in order with `sep` between neighbours; `""` for no
   * parts, and a single part alone, with no separator added.
   */
  function Join(parts: seq<string>, sep: string): (r: string)
    ensures parts == [] ==> r == []
    ensures |parts| == 1 ==> r == parts[0]
  {
    if |parts| == 0 then ""
    else if |parts| == 1 then parts[0]
    else parts[0] + sep + Join(parts[1..], sep)
  }

  function SumLengths(parts: seq<string>): nat {
    if parts == [] then 0 else |parts[0]| + SumLengths(parts[1..])
  }

  /** Where part `i` starts in the joined string: the parts before it and one separator after each. */
  function Offset(parts: seq<string>, sep: string, i: nat): nat
    requires i <= |parts|
  {
    if i == 0 then 0 else |parts[0]| + |sep| + Offset(parts[1..], sep, i - 1)
  }

  /** Part `i + 1` starts one separator after part `i` ends. */
  lemma {:induction false} OffsetNext(parts: seq<string>, sep: string, i: nat)
    requires i + 1 <= |parts|
    ensures Offset(parts, sep, i + 1) == Offset(parts, sep, i) + |parts[i]| + |sep|
  {
    if i > 0 {
      OffsetNext(parts[1..], sep, i - 1);
    }
  }

  /** A slice that lies inside the second half of a concatenation. */
  lemma SliceRight<T>(p: seq<T>, q: seq<T>, x: nat, y: nat)
    requires x <= y <= |q|
    ensures (p + q)[|p| + x..|p| + y] == q[x..y]
  {
  }

  /** A slice that lies inside the first half of a concatenation. */
  lemma SliceLeft<T>(p: seq<T>, q: seq<T>, x: nat, y: nat)
    requires x <= y <= |p|
    ensures (p + q)[x..y] == p[x..y]
  {
  }

  /** Part `i` of the list appears, unchanged, at `Offset(parts, sep, i)` of the joined string. */
  lemma {:induction false} JoinPart(parts: seq<string>, sep: string, i: nat)
    requires i < |parts|
    ensures Offset(parts, sep, i) + |parts[i]| <= |Join(parts, sep)|
    ensures Join(parts, sep)[Offset(parts, sep, i)..Offset(parts, sep, i) + |parts[i]|] == parts[i]
  {
    if i == 0 {
      JoinFirst(parts, sep);
    } else {
      JoinPart(parts[1..], sep, i - 1);
      JoinPartStep(parts, sep, i);
    }
  }

  /** The joined string starts with the first part. */
  lemma JoinFirst(parts: seq<string>, sep: string)
    requires parts != []
    ensures |parts[0]| <= |Join(parts, sep)|
    ensures Join(parts, sep)[..|parts[0]|] == parts[0]
  {
    if |parts| > 1 {
      var rest := Join(parts[1..], sep);
      assert Join(parts, sep) == parts[0] + (sep + rest);
      SliceLeft(parts[0], sep + rest, 0, |parts[0]|);
    }
  }

  /** Carries the position of part `i` from the joined tail to the whole joined list. */
  lemma JoinPartStep(parts: seq<string>, sep: string, i: nat)
    requires 0 < i < |parts|
    requires Offset(parts[1..], sep, i - 1) + |parts[i]| <= |Join(parts[1..], sep)|
    requires Join(parts[1..], sep)[Offset(parts[1..], sep, i - 1)..Offset(parts[1..], sep, i - 1) + |parts[i]|] == parts[i]
    ensures Offset(parts, sep, i) + |parts[i]| <= |Join(parts, sep)|
    ensures Join(parts, sep)[Offset(parts, sep, i)..Offset(parts, sep, i) + |parts[i]|] == parts[i]
  {
    var head, rest := parts[0] + sep, Join(parts[1..], sep);
    var o := Offset(parts[1..], sep, i - 1);
    assert Join(parts, sep) == head + rest;
    assert Offset(parts, sep, i) == |head| + o;
    SliceRight(head, rest, o, o + |parts[i]|);
  }

  /** Between part `i` and part `i + 1` of the joined string stands exactly one separator. */
  lemma {:induction false} JoinSeparator(parts: seq<string>, sep: string, i: nat)
    requires i + 1 < |parts|
    ensures Offset(parts, sep, i + 1) == Offset(parts, sep, i) + |parts[i]| + |sep|
    ensures Offset(parts, sep, i + 1) <= |Join(parts, sep)|
    ensures Join(parts, sep)[Offset(parts, sep, i) + |parts[i]|..Offset(parts, sep, i + 1)] == sep
  {
    OffsetNext(parts, sep, i);
    JoinPart(parts, sep, i + 1);
    var j := Join(parts, sep);
    if i == 0 {
      assert j == parts[0] + sep + Join(parts[1..], sep);
    } else {
      var tail := parts[1..];
      var k := |parts[0]| + |sep|;
      JoinSeparator(tail, sep, i - 1);
      assert j == parts[0] + sep + Join(tail, sep);
      var a := Offset(tail, sep, i - 1) + |tail[i - 1]|;
      var b := Offset(tail, sep, i);
      assert j[k + a..k + b] == Join(tail, sep)[a..b];
    }
  }

  /** The joined string is as long as the parts together plus one separator per gap. */
  lemma {:induction false} JoinLength(parts: seq<string>, sep: string)
    requires parts != []
    ensures |Join(parts, sep)| + |sep| == SumLengths(parts) + |parts| * |sep|
  {
    if |parts| > 1 {
      JoinLength(parts[1..], sep);
      assert |parts| * |sep| == (|parts| - 1) * |sep| + |sep|;
    }
  }
}
