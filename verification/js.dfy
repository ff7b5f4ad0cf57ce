/** The few JavaScript built-ins the controllers rely on, stated over Dafny
    values: nullable/undefined values, JSON values read back from storage,
    `Array.prototype.indexOf`, `splice(i, 1)`, `toLowerCase`, `substr(0, n)`
    and `Number.prototype.toString`. */
module Js {

  /** A value that may be absent: `null` from storage, or `undefined` read
      past the end of an array. */
  datatype Option<+T> = None | Some(value: T)

  /** A JSON value as parsed from storage. Numbers, arrays and objects are
      never compared by the code modelled here, so they share one case. */
  datatype JsValue = Null | Bool(b: bool) | Str(s: string) | Other

  /** `s.indexOf(x)` with strict equality: the first position of `x`, or -1. */
  function IndexOf<T(==)>(s: seq<T>, x: T): (r: int)
    ensures -1 <= r < |s|
    ensures r == -1 <==> x !in s
    ensures 0 <= r ==> s[r] == x && x !in s[..r]
  {
    if |s| == 0 then -1
    else if s[0] == x then 0
    else
      var k := IndexOf(s[1..], x);
      assert s[1..][..if k < 0 then 0 else k] == s[1..1 + if k < 0 then 0 else k];
      if k == -1 then -1 else k + 1
  }

  /** The first occurrence of an element is where `indexOf` finds it. */
  lemma IndexOfFirst<T>(s: seq<T>, k: int)
    requires 0 <= k < |s| && s[k] !in s[..k]
    ensures IndexOf(s, s[k]) == k
  {
    assert forall i :: 0 <= i < k ==> s[..k][i] == s[i];
  }

  /** Where `splice(start, 1)` starts: a negative start counts from the end
      and is floored at 0, a start past the end is capped at the length. */
  function SpliceIndex(len: nat, start: int): (k: nat)
    ensures k <= len
    ensures 0 <= start <= len ==> k == start
    ensures -(len as int) <= start < 0 ==> k == len + start
  {
    if start < 0 then (if len + start < 0 then 0 else len + start)
    else if start > len then len
    else start
  }

  /** `s.splice(start, 1)`: removes the element at `SpliceIndex(|s|, start)`,
      or nothing when that index is the length. */
  function SpliceOne<T>(s: seq<T>, start: int): (r: seq<T>)
    ensures var k := SpliceIndex(|s|, start);
      && (k < |s| ==> |r| == |s| - 1 && multiset(r) == multiset(s) - multiset{s[k]})
      && (k == |s| ==> r == s)
      && (forall j :: 0 <= j < k && j < |r| ==> r[j] == s[j])
      && (forall j :: k <= j < |r| ==> r[j] == s[j + 1])
    ensures |s| > 0 && (start == -1 || start == |s| - 1) ==> r == s[..|s| - 1]
  {
    var k := SpliceIndex(|s|, start);
    if k < |s| then
      assert s == s[..k] + [s[k]] + s[k + 1..];
      s[..k] + s[k + 1..]
    else s
  }

  /** Splicing out the element just pushed restores the array. */
  lemma SplicePushed<T>(s: seq<T>, x: T)
    ensures SpliceOne(s + [x], |s|) == s
  {
    assert (s + [x])[..|s|] == s;
  }

  function LowerChar(c: char): char
  {
    if 'A' <= c <= 'Z' then (c as int - 'A' as int + 'a' as int) as char else c
  }

  /** `toLowerCase`, restricted to ASCII letters. */
  function Lower(s: string): (r: string)
    ensures |r| == |s|
    ensures forall i :: 0 <= i < |s| ==> r[i] == LowerChar(s[i])
  {
    seq(|s|, i requires 0 <= i < |s| => LowerChar(s[i]))
  }

  /** `s.substr(0, n)`: at most the first `n` characters. */
  function Prefix(s: string, n: nat): (r: string)
    ensures r <= s
    ensures |r| == if |s| < n then |s| else n
  {
    if |s| <= n then s else s[..n]
  }

  function DigitChar(d: nat): char
    requires d < 10
  {
    "0123456789"[d]
  }

  /** The decimal value of a string of digits (the inverse of `NatToString`). */
  function DigitsValue(s: string): int
  {
    if |s| == 0 then 0
    else DigitsValue(s[..|s| - 1]) * 10 + (s[|s| - 1] as int - '0' as int)
  }

  /** `n.toString()` for a non-negative integer. */
  function NatToString(n: nat): (r: string)
    ensures |r| > 0 && '0' <= r[0] <= '9'
    ensures |r| > 1 ==> r[0] != '0'
  {
    if n < 10 then [DigitChar(n)] else NatToString(n / 10) + [DigitChar(n % 10)]
  }

  /** Reading back the decimal rendering gives the number again. */
  lemma {:induction false} NatToStringRoundTrip(n: nat)
    ensures DigitsValue(NatToString(n)) == n
  {
    var s := NatToString(n);
    if n < 10 {
      assert s[..|s| - 1] == "";
    } else {
      NatToStringRoundTrip(n / 10);
      assert s[..|s| - 1] == NatToString(n / 10);
    }
  }

  /** `i.toString()` for any integer. */
  function IntToString(i: int): string
  {
    if i < 0 then "-" + NatToString(-i) else NatToString(i)
  }

  /** The rendering starts with `-` exactly for negative integers. */
  lemma IntToStringSign(i: int)
    ensures |IntToString(i)| > 0
    ensures IntToString(i)[0] == '-' <==> i < 0
  {
  }

  /** Distinct naturals render differently. */
  lemma NatToStringInjective(a: nat, b: nat)
    requires NatToString(a) == NatToString(b)
    ensures a == b
  {
    NatToStringRoundTrip(a);
    NatToStringRoundTrip(b);
  }

  /** Distinct integers render differently, so string keys identify ids. */
  lemma IntToStringInjective(i: int, j: int)
    requires IntToString(i) == IntToString(j)
    ensures i == j
  {
    IntToStringSign(i);
    IntToStringSign(j);
    if i < 0 && j < 0 {
      assert IntToString(i)[1..] == NatToString(-i);
      assert IntToString(j)[1..] == NatToString(-j);
      NatToStringInjective(-i, -j);
    } else if 0 <= i && 0 <= j {
      NatToStringInjective(i, j);
    }
  }
}
