/**
 * The Python string operations the bot relies on, over `seq<char>`:
 * `sep.join(parts)`, `str(int)`, `sub in s`, `s.find(sub)`, slicing with
 * non-negative bounds, and the text an f-string gives for a value that may be None.
 */
module Strings {
  import opened Wrappers

  // ---------------------------------------------------------------------------
  // sep.join(parts)
  // ---------------------------------------------------------------------------

  /** Python's `sep.join(parts)`. */
  function Join(sep: string, parts: seq<string>): string
  {
    if |parts| == 0 then ""
    else if |parts| == 1 then parts[0]
    else Join(sep, parts[..|parts| - 1]) + sep + parts[|parts| - 1]
  }

  /** Joining peels off the first part just as it peels off the last. */
  lemma {:induction false} JoinCons(sep: string, p: string, rest: seq<string>)
    requires rest != []
    ensures Join(sep, [p] + rest) == p + sep + Join(sep, rest)
  {
    var all := [p] + rest;
    if |rest| == 1 {
      assert all[..1] == [p];
    } else {
      var init := rest[..|rest| - 1];
      assert all[..|all| - 1] == [p] + init;
      JoinCons(sep, p, init);
    }
  }

  /** The strings back to back (`''.join(parts)`, or a `+=` loop over them). */
  function Concat(parts: seq<string>): string
  {
    if parts == [] then "" else Concat(parts[..|parts| - 1]) + parts[|parts| - 1]
  }

  /** Strings back to back are empty exactly when each of them is. */
  lemma {:induction false} ConcatEmptyIff(parts: seq<string>)
    ensures Concat(parts) == "" <==> forall i :: 0 <= i < |parts| ==> parts[i] == ""
  {
    if parts != [] {
      var init := parts[..|parts| - 1];
      ConcatEmptyIff(init);
      assert forall i :: 0 <= i < |init| ==> init[i] == parts[i];
    }
  }

  /** The total length of a list of strings. */
  function TotalLength(parts: seq<string>): nat
  {
    if parts == [] then 0 else TotalLength(parts[..|parts| - 1]) + |parts[|parts| - 1]|
  }

  /** A join is the parts back to back with one separator between neighbours. */
  lemma {:induction false} JoinLength(sep: string, parts: seq<string>)
    requires parts != []
    ensures |Join(sep, parts)| == TotalLength(parts) + |sep| * (|parts| - 1)
  {
    if |parts| > 1 {
      var init := parts[..|parts| - 1];
      JoinLength(sep, init);
      assert TotalLength(parts) == TotalLength(init) + |parts[|parts| - 1]|;
    } else {
      assert parts[..0] == [];
    }
  }

  /** When no part is empty, the join is empty exactly when there are no parts. */
  lemma JoinEmptyIff(sep: string, parts: seq<string>)
    requires forall i :: 0 <= i < |parts| ==> parts[i] != ""
    ensures Join(sep, parts) == "" <==> parts == []
  {
    if parts != [] {
      JoinLength(sep, parts);
      PositiveTotal(parts);
    }
  }

  lemma {:induction false} PositiveTotal(parts: seq<string>)
    requires parts != []
    requires forall i :: 0 <= i < |parts| ==> parts[i] != ""
    ensures TotalLength(parts) > 0
  {
  }

  // ---------------------------------------------------------------------------
  // Substring search: `sub in s` and `s.find(sub)`
  // ---------------------------------------------------------------------------

  /** `sub` occurs in `s` starting at index `i`. */
  predicate OccursAt(s: string, sub: string, i: nat)
  {
    i + |sub| <= |s| && s[i..i + |sub|] == sub
  }

  /** Python's `sub in s`. */
  predicate Contains(s: string, sub: string)
  {
    exists i: nat | i <= |s| :: OccursAt(s, sub, i)
  }

  function FindFrom(s: string, sub: string, from: nat): (r: int)
    requires from <= |s|
    ensures r == -1 || (from <= r && OccursAt(s, sub, r))
    ensures r == -1 ==> forall j: nat :: from <= j ==> !OccursAt(s, sub, j)
    ensures r >= 0 ==> forall j: nat :: from <= j < r ==> !OccursAt(s, sub, j)
    decreases |s| - from
  {
    if OccursAt(s, sub, from) then from
    else if from == |s| then -1
    else FindFrom(s, sub, from + 1)
  }

  /** Python's `s.find(sub)`: the lowest index where `sub` occurs, or -1. */
  function Find(s: string, sub: string): (r: int)
    ensures r == -1 <==> !Contains(s, sub)
    ensures r >= 0 ==> OccursAt(s, sub, r) && forall j: nat :: j < r ==> !OccursAt(s, sub, j)
  {
    FindFrom(s, sub, 0)
  }

  /** An occurrence inside a prefix is an occurrence in the whole string. */
  lemma OccursInPrefix(s: string, n: nat, sub: string, j: nat)
    requires n <= |s|
    requires OccursAt(s[..n], sub, j)
    ensures OccursAt(s, sub, j) && j + |sub| <= n
  {
    assert s[..n][j..j + |sub|] == s[j..j + |sub|];
  }

  // ---------------------------------------------------------------------------
  // Splitting: the inverse of Join
  // ---------------------------------------------------------------------------

  /** Python's `s.split(sep)` for a non-empty separator. */
  function Split(s: string, sep: string): (r: seq<string>)
    requires sep != ""
    ensures r != []
    decreases |s|
  {
    var i := Find(s, sep);
    if i < 0 then [s] else [s[..i]] + Split(s[i + |sep|..], sep)
  }

  /**
   * The separator cannot appear straddling a part: its first character occurs
   * nowhere else in it and in no part.
   */
  predicate Splittable(sep: string, parts: seq<string>)
  {
    && sep != ""
    && (forall k :: 1 <= k < |sep| ==> sep[k] != sep[0])
    && (forall i, k :: 0 <= i < |parts| && 0 <= k < |parts[i]| ==> parts[i][k] != sep[0])
  }

  lemma FirstSeparator(p: string, sep: string, rest: string)
    requires sep != ""
    requires forall k :: 0 <= k < |p| ==> p[k] != sep[0]
    ensures Find(p + sep + rest, sep) == |p|
  {
    var s := p + sep + rest;
    assert OccursAt(s, sep, |p|) by {
      assert s[|p|..|p| + |sep|] == sep;
    }
    forall j: nat | j < |p|
      ensures !OccursAt(s, sep, j)
    {
      if j + |sep| <= |s| {
        assert s[j..j + |sep|][0] == p[j];
      }
    }
    var f := Find(s, sep);
    assert f >= 0 && f <= |p|;
  }

  lemma NoSeparator(p: string, sep: string)
    requires sep != ""
    requires forall k :: 0 <= k < |p| ==> p[k] != sep[0]
    ensures Find(p, sep) == -1
  {
    forall j: nat | j <= |p|
      ensures !OccursAt(p, sep, j)
    {
      if j + |sep| <= |p| {
        assert p[j..j + |sep|][0] == p[j];
      }
    }
  }

  /** Splitting a join on its separator gives the parts back. */
  lemma {:induction false} SplitJoin(sep: string, parts: seq<string>)
    requires parts != []
    requires Splittable(sep, parts)
    ensures Split(Join(sep, parts), sep) == parts
  {
    var p := parts[0];
    assert forall k :: 0 <= k < |p| ==> p[k] != sep[0] by {
      forall k | 0 <= k < |p| ensures p[k] != sep[0] {
        assert parts[0][k] != sep[0];
      }
    }
    if |parts| == 1 {
      NoSeparator(p, sep);
    } else {
      var rest := parts[1..];
      assert parts == [p] + rest;
      JoinCons(sep, p, rest);
      var tail := Join(sep, rest);
      FirstSeparator(p, sep, tail);
      var s := p + sep + tail;
      assert s[..|p|] == p;
      assert s[|p| + |sep|..] == tail;
      assert Splittable(sep, rest) by {
        forall i, k | 0 <= i < |rest| && 0 <= k < |rest[i]| ensures rest[i][k] != sep[0] {
          assert rest[i] == parts[i + 1];
        }
      }
      SplitJoin(sep, rest);
    }
  }

  // ---------------------------------------------------------------------------
  // Decimal text: Python's str(int)
  // ---------------------------------------------------------------------------

  predicate IsDigit(c: char)
  {
    '0' <= c <= '9'
  }

  predicate AllDigits(s: string)
  {
    forall i :: 0 <= i < |s| ==> IsDigit(s[i])
  }

  function DigitChar(d: nat): (c: char)
    requires d < 10
    ensures IsDigit(c) && c as int - '0' as int == d
  {
    ('0' as int + d) as char
  }

  /** The decimal digits of `n`, most significant first, with no leading zero. */
  function NatToString(n: nat): (r: string)
    ensures r != [] && AllDigits(r)
    ensures r[0] == '0' ==> n == 0
    decreases n
  {
    if n < 10 then [DigitChar(n)] else NatToString(n / 10) + [DigitChar(n % 10)]
  }

  /** The number a string of decimal digits denotes. */
  function DigitsValue(s: string): nat
    requires AllDigits(s)
  {
    if s == [] then 0 else DigitsValue(s[..|s| - 1]) * 10 + (s[|s| - 1] as int - '0' as int)
  }

  /** Reading the decimal text of `n` gives `n` back. */
  lemma {:induction false} NatToStringRoundTrip(n: nat)
    ensures DigitsValue(NatToString(n)) == n
  {
    if n >= 10 {
      var r := NatToString(n);
      assert r[..|r| - 1] == NatToString(n / 10);
      NatToStringRoundTrip(n / 10);
    }
  }

  /** Python's `str(n)` (and the f-string `{n}`) for an integer. */
  function IntToString(n: int): (r: string)
    ensures r != []
    ensures forall i :: 0 <= i < |r| ==> IsDigit(r[i]) || (i == 0 && r[i] == '-' && n < 0)
  {
    if n < 0 then "-" + NatToString(-n) else NatToString(n)
  }

  /** Different integers have different decimal texts. */
  lemma IntToStringInjective(a: int, b: int)
    requires IntToString(a) == IntToString(b)
    ensures a == b
  {
    var r := IntToString(a);
    if a < 0 && b < 0 {
      assert r == "-" + NatToString(-a) && r == "-" + NatToString(-b);
      assert NatToString(-a) == r[1..] == NatToString(-b);
      NatToStringInjective(-a, -b);
    } else if a >= 0 && b >= 0 {
      NatToStringInjective(a, b);
    } else {
      assert false;
    }
  }

  lemma NatToStringInjective(a: nat, b: nat)
    requires NatToString(a) == NatToString(b)
    ensures a == b
  {
    NatToStringRoundTrip(a);
    NatToStringRoundTrip(b);
  }

  // ---------------------------------------------------------------------------
  // Slicing and f-string rendering of optional values
  // ---------------------------------------------------------------------------

  function Min(a: int, b: int): int
  {
    if a <= b then a else b
  }

  /** Python's `s[lo:hi]` for non-negative bounds: out-of-range bounds are clamped. */
  function Slice(s: string, lo: nat, hi: nat): (r: string)
    ensures |r| == if lo < Min(hi, |s|) then Min(hi, |s|) - lo else 0
    ensures forall k :: 0 <= k < |r| ==> r[k] == s[lo + k]
  {
    if lo >= Min(hi, |s|) then "" else s[lo..Min(hi, |s|)]
  }

  /** What an f-string prints for a string value that may be None. */
  function Show(v: Option<string>): string
  {
    match v
    case None => "None"
    case Some(s) => s
  }

  /** What an f-string prints for an integer value that may be None. */
  function ShowInt(v: Option<int>): string
  {
    match v
    case None => "None"
    case Some(n) => IntToString(n)
  }
}
