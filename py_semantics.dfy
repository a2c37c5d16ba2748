/**
 * The parts of Python's built-in behaviour that the pipeline relies on:
 * slicing and indexing with negative or out-of-range bounds, ASCII
 * upper-casing, decimal formatting and parsing of integers, and the
 * outcome of a call that may raise or never return.
 */
module PySemantics {

  datatype Option<+T> = None | Some(value: T)

  /** The result of running a piece of the pipeline: a value, an exception
      (the pipeline aborts), or a loop that never ends. */
  datatype Outcome<+T> = Done(value: T) | Raises(error: string) | Hangs
  {
    predicate IsFailure() { !Done? }

    function PropagateFailure<U>(): (r: Outcome<U>)
      requires !Done?
    {
      if Raises? then Raises(error) else Hangs
    }

    function Extract(): (r: T)
      requires Done?
    {
      value
    }
  }

  /** How CPython normalises one bound of `s[lo:hi]` for a sequence of length n. */
  function Norm(i: int, n: nat): (k: nat)
    ensures k <= n
  {
    if i < 0 then (if i + n < 0 then 0 else i + n)
    else if i > n then n
    else i
  }

  /** Python's `s[lo:hi]`. */
  function Slice<T>(s: seq<T>, lo: int, hi: int): (r: seq<T>)
    ensures |r| <= |s|
    ensures 0 <= lo <= hi <= |s| ==> r == s[lo..hi]
    ensures Norm(hi, |s|) <= Norm(lo, |s|) ==> r == []
  {
    var a := Norm(lo, |s|);
    var b := Norm(hi, |s|);
    if a < b then s[a..b] else []
  }

  /** Python's `s[:hi]`. */
  function Take<T>(s: seq<T>, hi: int): (r: seq<T>)
    ensures r == s[..Norm(hi, |s|)]
  {
    Slice(s, 0, hi)
  }

  /** Python's `s[lo:]`. */
  function Drop<T>(s: seq<T>, lo: int): (r: seq<T>)
    ensures r == s[Norm(lo, |s|)..]
  {
    Slice(s, lo, |s|)
  }

  /** `s[:k] + s[k:] == s` holds in Python for every integer k. */
  lemma TakeDrop<T>(s: seq<T>, k: int)
    ensures Take(s, k) + Drop(s, k) == s
  {
    var n := Norm(k, |s|);
    assert s[..n] + s[n..] == s;
  }

  /** `s[i]` does not raise IndexError. */
  predicate ValidIndex(n: nat, i: int)
  {
    0 <= i + n && i < n
  }

  /** Python's `s[i]`, negative indices counting from the end. */
  function At<T>(s: seq<T>, i: int): (x: T)
    requires ValidIndex(|s|, i)
    ensures 0 <= i ==> x == s[i]
    ensures i < 0 ==> x == s[i + |s|]
  {
    if i < 0 then s[i + |s|] else s[i]
  }

  /** `str.upper()` on one character, restricted to ASCII letters. */
  function Upper(c: char): (u: char)
    ensures 'a' <= c <= 'z' ==> 'A' <= u <= 'Z'
    ensures !('a' <= c <= 'z') ==> u == c
  {
    if 'a' <= c <= 'z' then (c as int - 32) as char else c
  }

  function UpperStr(s: string): (r: string)
    ensures |r| == |s|
    ensures forall i :: 0 <= i < |s| ==> r[i] == Upper(s[i])
  {
    seq(|s|, i requires 0 <= i < |s| => Upper(s[i]))
  }

  predicate IsDigit(c: char)
  {
    '0' <= c <= '9'
  }

  function DigitChar(d: nat): (c: char)
    requires d < 10
    ensures IsDigit(c)
  {
    ('0' as int + d) as char
  }

  function NatToStr(n: nat): (s: string)
    ensures |s| > 0
    ensures forall i :: 0 <= i < |s| ==> IsDigit(s[i])
  {
    if n < 10 then [DigitChar(n)] else NatToStr(n / 10) + [DigitChar(n % 10)]
  }

  /** Python's `str(n)` for an integer. */
  function IntToStr(n: int): (s: string)
    ensures |s| > 0
    ensures n >= 0 ==> s == NatToStr(n)
    ensures n < 0 <==> s[0] == '-'
  {
    if n < 0 then "-" + NatToStr(-n) else NatToStr(n)
  }

  /** The value of a non-empty string of ASCII digits. */
  function DigitsValue(s: string): (r: nat)
    requires AllDigits(s)
  {
    assert IsDigit(s[|s| - 1]);
    var d: nat := s[|s| - 1] as int - '0' as int;
    if |s| == 1 then d else 10 * DigitsValue(s[..|s| - 1]) + d
  }

  /** A non-empty string of ASCII digits. */
  predicate AllDigits(s: string)
  {
    |s| > 0 && forall i :: 0 <= i < |s| ==> IsDigit(s[i])
  }

  /** Python's `int(s)`, restricted to an optional sign followed by ASCII digits;
      any other string raises ValueError (None). */
  function ParseInt(s: string): (r: Option<int>)
    ensures r.Some? <==> AllDigits(s) || (|s| > 1 && (s[0] == '-' || s[0] == '+') && AllDigits(s[1..]))
    ensures AllDigits(s) ==> r.Some? && r.value >= 0
  {
    if AllDigits(s) then Some(DigitsValue(s) as int)
    else if |s| > 1 && s[0] == '-' && AllDigits(s[1..]) then Some(0 - DigitsValue(s[1..]) as int)
    else if |s| > 1 && s[0] == '+' && AllDigits(s[1..]) then Some(DigitsValue(s[1..]))
    else None
  }

  /** The digits of `str(n)` read back as n. */
  lemma {:induction false} DigitsNatToStr(n: nat)
    ensures AllDigits(NatToStr(n)) && DigitsValue(NatToStr(n)) == n
  {
    var s := NatToStr(n);
    if n >= 10 {
      DigitsNatToStr(n / 10);
      assert s[..|s| - 1] == NatToStr(n / 10);
    }
  }

  /** `int(str(n)) == n` for every integer. */
  lemma ParseIntToStr(n: int)
    ensures ParseInt(IntToStr(n)) == Some(n)
  {
    if n < 0 {
      DigitsNatToStr(-n);
      var s := IntToStr(n);
      assert s[1..] == NatToStr(-n);
      assert !AllDigits(s) by { assert !IsDigit(s[0]); }
    } else {
      DigitsNatToStr(n);
    }
  }

  /** `str` is one-to-one on integers, so a list of `str(i)` holds `str(x)` exactly when the list of
      the i holds x. */
  lemma IntToStrInjective(a: int, b: int)
    ensures IntToStr(a) == IntToStr(b) ==> a == b
  {
    ParseIntToStr(a);
    ParseIntToStr(b);
  }
}
