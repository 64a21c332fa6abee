/**
 * The few `java.lang.String` / `Integer` operations the modelled code relies on:
 * `trim`, `split` on a single literal character (with limit 0 and with limit -1),
 * and the decimal rendering of an `int` used by string concatenation.
 */
module JavaText {

  /** `String.trim` removes every leading and trailing char whose code is at most U+0020. */
  predicate IsTrimmable(c: char) {
    c <= ' '
  }

  /** `s` without its leading trimmable chars. */
  function TrimStart(s: string): string {
    if |s| > 0 && IsTrimmable(s[0]) then TrimStart(s[1..]) else s
  }

  /** `s` without its trailing trimmable chars. */
  function TrimEnd(s: string): string {
    if |s| > 0 && IsTrimmable(s[|s| - 1]) then TrimEnd(s[..|s| - 1]) else s
  }

  /** `s.trim()`: the longest slice of `s` that neither starts nor ends with a trimmable char. */
  function Trim(s: string): string {
    TrimEnd(TrimStart(s))
  }

  /** TrimStart drops exactly the leading run of trimmable chars. */
  lemma {:induction false} TrimStartIsSuffix(s: string)
    ensures |TrimStart(s)| <= |s| && TrimStart(s) == s[|s| - |TrimStart(s)|..]
    ensures forall k :: 0 <= k < |s| - |TrimStart(s)| ==> IsTrimmable(s[k])
    ensures TrimStart(s) == [] || !IsTrimmable(TrimStart(s)[0])
    decreases |s|
  {
    if |s| > 0 && IsTrimmable(s[0]) {
      TrimStartIsSuffix(s[1..]);
      assert forall k :: 1 <= k < |s| ==> s[1..][k - 1] == s[k];
    }
  }

  /** TrimEnd drops exactly the trailing run of trimmable chars. */
  lemma {:induction false} TrimEndIsPrefix(s: string)
    ensures |TrimEnd(s)| <= |s| && TrimEnd(s) == s[..|TrimEnd(s)|]
    ensures forall k :: |TrimEnd(s)| <= k < |s| ==> IsTrimmable(s[k])
    ensures TrimEnd(s) == [] || !IsTrimmable(TrimEnd(s)[|TrimEnd(s)| - 1])
    decreases |s|
  {
    if |s| > 0 && IsTrimmable(s[|s| - 1]) {
      TrimEndIsPrefix(s[..|s| - 1]);
      assert forall k :: 0 <= k < |s| - 1 ==> s[..|s| - 1][k] == s[k];
    }
  }

  lemma TrimIsSlice(s: string)
    ensures exists i, j ::
              && 0 <= i <= j <= |s| && Trim(s) == s[i..j]
              && (forall k :: 0 <= k < i ==> IsTrimmable(s[k]))
              && (forall k :: j <= k < |s| ==> IsTrimmable(s[k]))
    ensures Trim(s) == [] || (!IsTrimmable(Trim(s)[0]) && !IsTrimmable(Trim(s)[|Trim(s)| - 1]))
    ensures Trim(s) == [] <==> forall k :: 0 <= k < |s| ==> IsTrimmable(s[k])
  {
    var t := TrimStart(s);
    TrimStartIsSuffix(s);
    var i := |s| - |t|;
    var r := TrimEnd(t);
    TrimEndIsPrefix(t);
    assert r == s[i..i + |r|];
    if r != [] {
      assert r[0] == t[0];
    }
    if r == [] {
      assert t == [];
    }
  }

  lemma TrimIdempotent(s: string)
    ensures Trim(Trim(s)) == Trim(s)
  {
    var r := Trim(s);
    TrimIsSlice(s);
    if r != [] {
      assert TrimStart(r) == r;
      assert TrimEnd(r) == r;
    }
  }

  /** The index of the first occurrence of `sep` in `s`. */
  function IndexOf(s: string, sep: char): (i: nat)
    requires sep in s
    ensures i < |s| && s[i] == sep && sep !in s[..i]
  {
    if s[0] == sep then 0 else 1 + IndexOf(s[1..], sep)
  }

  /**
   * `s.split(sep, -1)` for a literal one-char separator: every piece, empty ones included,
   * so there is always one more piece than there are separators.
   */
  function SplitAll(s: string, sep: char): (parts: seq<string>)
    ensures |parts| >= 1
    ensures forall i :: 0 <= i < |parts| ==> sep !in parts[i]
    decreases |s|
  {
    if sep !in s then [s]
    else
      var i := IndexOf(s, sep);
      [s[..i]] + SplitAll(s[i + 1..], sep)
  }

  /** `String.join(sep, parts)`, the inverse of SplitAll. */
  function Join(parts: seq<string>, sep: char): string
  {
    if |parts| == 0 then ""
    else if |parts| == 1 then parts[0]
    else parts[0] + [sep] + Join(parts[1..], sep)
  }

  lemma {:induction false} JoinSplitAll(s: string, sep: char)
    ensures Join(SplitAll(s, sep), sep) == s
    decreases |s|
  {
    if sep in s {
      var i := IndexOf(s, sep);
      var rest := SplitAll(s[i + 1..], sep);
      JoinSplitAll(s[i + 1..], sep);
      assert SplitAll(s, sep) == [s[..i]] + rest;
      assert Join(SplitAll(s, sep), sep) == s[..i] + [sep] + Join(rest, sep);
      assert s == s[..i] + [sep] + s[i + 1..];
    }
  }

  lemma {:induction false} SplitAllJoin(parts: seq<string>, sep: char)
    requires |parts| >= 1
    requires forall i :: 0 <= i < |parts| ==> sep !in parts[i]
    ensures SplitAll(Join(parts, sep), sep) == parts
  {
    if |parts| > 1 {
      var s := Join(parts, sep);
      SplitAllJoin(parts[1..], sep);
      assert s == parts[0] + [sep] + Join(parts[1..], sep);
      assert s[|parts[0]|] == sep;
      assert s[..|parts[0]|] == parts[0];
      assert IndexOf(s, sep) == |parts[0]|;
      assert s[|parts[0]| + 1..] == Join(parts[1..], sep);
    }
  }

  /** `parts` with its trailing empty strings removed. */
  function DropTrailingEmpty(parts: seq<string>): (r: seq<string>)
    ensures |r| <= |parts| && r == parts[..|r|]
    ensures r == [] || r[|r| - 1] != ""
    ensures forall k :: |r| <= k < |parts| ==> parts[k] == ""
  {
    if |parts| > 0 && parts[|parts| - 1] == "" then DropTrailingEmpty(parts[..|parts| - 1]) else parts
  }

  /**
   * `s.split(sep)` (limit 0) for a literal one-char separator: when `sep` does not occur
   * the answer is `[s]` (even for the empty string); otherwise all pieces with the
   * trailing empty ones removed, which leaves none at all for a string of separators.
   */
  function Split(s: string, sep: char): (parts: seq<string>)
  {
    if sep !in s then [s] else DropTrailingEmpty(SplitAll(s, sep))
  }

  lemma SplitPieces(s: string, sep: char)
    ensures forall i :: 0 <= i < |Split(s, sep)| ==> sep !in Split(s, sep)[i]
    ensures Split(s, sep) == SplitAll(s, sep)[..|Split(s, sep)|]
    ensures sep in s ==> forall k :: |Split(s, sep)| <= k < |SplitAll(s, sep)| ==> SplitAll(s, sep)[k] == ""
    ensures sep in s ==> Split(s, sep) == [] || Split(s, sep)[|Split(s, sep)| - 1] != ""
    ensures sep !in s ==> Split(s, sep) == [s]
  {
  }

  /** The char of one decimal digit. */
  function DigitChar(d: nat): (c: char)
    requires d < 10
    ensures '0' <= c <= '9' && c as int - '0' as int == d
  {
    ('0' as int + d) as char
  }

  predicate IsDigits(s: string) {
    forall i :: 0 <= i < |s| ==> '0' <= s[i] <= '9'
  }

  /** The decimal digits of `n`, most significant first, without leading zeros. */
  function NatToString(n: nat): (s: string)
    ensures |s| >= 1 && IsDigits(s)
    ensures (s[0] == '0') == (n == 0)
  {
    if n < 10 then [DigitChar(n)] else NatToString(n / 10) + [DigitChar(n % 10)]
  }

  /** The value of a string of decimal digits. */
  function DigitsValue(s: string): nat
    requires IsDigits(s)
  {
    if s == [] then 0 else 10 * DigitsValue(s[..|s| - 1]) + (s[|s| - 1] as int - '0' as int)
  }

  lemma {:induction false} DigitsValueOfNatToString(n: nat)
    ensures DigitsValue(NatToString(n)) == n
  {
    if n >= 10 {
      DigitsValueOfNatToString(n / 10);
      var s := NatToString(n);
      assert s[..|s| - 1] == NatToString(n / 10);
    }
  }

  /** `Integer.toString(n)` as string concatenation renders an `int`: a '-' sign, then the digits. */
  function IntToString(n: int): (s: string)
  {
    if n < 0 then "-" + NatToString(-n) else NatToString(n)
  }

  /** Reads back what IntToString renders: an optional '-' sign, then decimal digits. */
  predicate IsIntString(s: string) {
    |s| >= 1 && (IsDigits(s) || (s[0] == '-' && IsDigits(s[1..])))
  }

  function ParseInt(s: string): (n: int)
    requires IsIntString(s)
  {
    if s[0] == '-' then -(DigitsValue(s[1..]) as int) else DigitsValue(s)
  }

  lemma ParseIntToString(n: int)
    ensures IsIntString(IntToString(n))
    ensures ParseInt(IntToString(n)) == n
  {
    if n < 0 {
      assert IntToString(n)[1..] == NatToString(-n);
      DigitsValueOfNatToString(-n);
    } else {
      DigitsValueOfNatToString(n);
    }
  }

  /** Distinct integers render to distinct strings. */
  lemma IntToStringInjective(a: int, b: int)
    requires IntToString(a) == IntToString(b)
    ensures a == b
  {
    ParseIntToString(a);
    ParseIntToString(b);
  }

  /** The rendering of an `int` holds only a sign and digits, so never a '/'. */
  lemma IntToStringHasNoSlash(n: int)
    ensures '/' !in IntToString(n)
  {
  }

  /**
   * A string of the form `a + [sep] + b` where `b` holds no `sep` determines `a` and `b`:
   * `sep` must be its last `sep`.
   */
  lemma {:induction false} SplitAtLastSeparator(a1: string, b1: string, a2: string, b2: string, sep: char)
    requires sep !in b1 && sep !in b2
    requires a1 + [sep] + b1 == a2 + [sep] + b2
    ensures a1 == a2 && b1 == b2
  {
    var s := a1 + [sep] + b1;
    assert forall k :: |a1| < k < |s| ==> s[k] == b1[k - |a1| - 1];
    assert forall k :: |a2| < k < |s| ==> s[k] == b2[k - |a2| - 1];
    assert s[|a1|] == sep && s[|a2|] == sep;
    assert |a1| == |a2|;
    assert a1 == s[..|a1|] == a2;
    assert b1 == s[|a1| + 1..] == b2;
  }
}
