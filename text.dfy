// Character-level helpers shared by the model: ASCII digits, Python's
// str(int), str.zfill, str.strip and int(str) on the inputs this program
// feeds them.
module Text {
  import opened Wrappers

  predicate IsDigit(c: char) { '0' <= c <= '9' }

  predicate AllDigits(s: string) { forall i :: 0 <= i < |s| ==> IsDigit(s[i]) }

  predicate HasDigit(s: string) { exists i :: 0 <= i < |s| && IsDigit(s[i]) }

  /** The whitespace Python 2's str.strip() and int() remove. */
  predicate IsSpace(c: char) { c in {' ', '\t', '\n', '\r', '\U{B}', '\U{C}'} }

  /** Python 2's str.lower() on one character: ASCII capitals only. */
  function LowerChar(c: char): char { if 'A' <= c <= 'Z' then (c as int + 32) as char else c }

  /** str.lower(). */
  function Lower(s: string): (r: string)
    ensures |r| == |s| && forall i :: 0 <= i < |s| ==> r[i] == LowerChar(s[i])
  {
    seq(|s|, i requires 0 <= i < |s| => LowerChar(s[i]))
  }

  function DigitValue(c: char): (d: nat)
    requires IsDigit(c)
    ensures d < 10
  { c as int - '0' as int }

  function DigitChar(d: nat): (c: char)
    requires d < 10
    ensures IsDigit(c) && DigitValue(c) == d
  { ('0' as int + d) as char }

  /** The number a string of decimal digits denotes (leading zeros allowed). */
  function DigitsValue(s: string): nat
    requires AllDigits(s)
  {
    if s == [] then 0 else DigitsValue(s[..|s| - 1]) * 10 + DigitValue(s[|s| - 1])
  }

  /** Python's str(n) for a non-negative integer. */
  function NatToString(n: nat): (s: string)
    ensures AllDigits(s) && |s| >= 1
    ensures s[0] == '0' ==> n == 0
  {
    if n < 10 then [DigitChar(n)] else NatToString(n / 10) + [DigitChar(n % 10)]
  }

  lemma {:induction false} NatToStringRoundTrip(n: nat)
    ensures DigitsValue(NatToString(n)) == n
  {
    if n >= 10 {
      var s := NatToString(n);
      assert s[..|s| - 1] == NatToString(n / 10);
      NatToStringRoundTrip(n / 10);
    }
  }

  /** A value below 10^k has a decimal form of at most k characters. */
  lemma {:induction false} NatToStringLength(n: nat, m: nat)
    requires n <= m
    ensures |NatToString(n)| <= |NatToString(m)|
  {
    if n >= 10 {
      NatToStringLength(n / 10, m / 10);
    }
  }

  function Zeros(k: nat): (z: string)
    ensures |z| == k && AllDigits(z)
    ensures forall i :: 0 <= i < k ==> z[i] == '0'
  { if k == 0 then [] else Zeros(k - 1) + ['0'] }

  /** Python's s.zfill(width) for a string without a sign. */
  function ZFill(s: string, width: int): (r: string)
    ensures |r| == if width > |s| then width else |s|
  { if width > |s| then Zeros(width - |s|) + s else s }

  lemma {:induction false} LeadingZerosValue(k: nat, s: string)
    requires AllDigits(s)
    ensures AllDigits(Zeros(k) + s) && DigitsValue(Zeros(k) + s) == DigitsValue(s)
  {
    if s == [] {
      assert Zeros(k) + s == Zeros(k);
      ZerosValue(k);
    } else {
      var t := Zeros(k) + s;
      assert t[..|t| - 1] == Zeros(k) + s[..|s| - 1];
      LeadingZerosValue(k, s[..|s| - 1]);
    }
  }

  lemma {:induction false} ZerosValue(k: nat)
    ensures DigitsValue(Zeros(k)) == 0
  {
    if k > 0 {
      assert Zeros(k)[..k - 1] == Zeros(k - 1);
      ZerosValue(k - 1);
    }
  }

  /** zfill never changes the number a digit string denotes. */
  lemma ZFillValue(s: string, width: int)
    requires AllDigits(s)
    ensures AllDigits(ZFill(s, width)) && DigitsValue(ZFill(s, width)) == DigitsValue(s)
  {
    if width > |s| {
      LeadingZerosValue(width - |s|, s);
    }
  }

  /** Python's str.strip() with no argument. */
  function Strip(s: string): (r: string)
    ensures |r| <= |s|
    ensures r != [] ==> !IsSpace(r[0]) && !IsSpace(r[|r| - 1])
  {
    if s == [] then []
    else if IsSpace(s[0]) then Strip(s[1..])
    else if IsSpace(s[|s| - 1]) then Strip(s[..|s| - 1])
    else s
  }

  /** Python 2's int(s) on a str: surrounding whitespace, an optional sign,
      more whitespace (strtol skips it after the sign too, so int('+ 3') is
      3), then at least one ASCII digit; anything else raises ValueError
      (None). */
  function PyInt(s: string): (r: Option<int>)
    ensures AllDigits(s) && s != [] ==> r == Some(DigitsValue(s))
  {
    var t := Strip(s);
    if t != [] && (t[0] == '+' || t[0] == '-') then
      var body := Strip(t[1..]);
      (if body != [] && AllDigits(body)
       then var v: int := DigitsValue(body); Some(if t[0] == '-' then -v else v)
       else None)
    else if t != [] && AllDigits(t) then Some(DigitsValue(t))
    else None
  }

  /** The sign may be followed by whitespace, and a sign alone is no
      number. */
  lemma PyIntSpaceAfterSign()
    ensures PyInt("+ 3") == Some(3) && PyInt("+") == None
  {
    var s := "+ 3";
    assert !IsSpace(s[0]) && !IsSpace(s[|s| - 1]);
    var body := s[1..];
    assert body == " 3";
    assert Strip(body) == Strip(body[1..]) && body[1..] == "3";
    assert DigitsValue("3") == 3;
  }

  /** Everything before the first occurrence of c, or all of s. */
  function Before(s: string, c: char): (r: string)
    ensures |r| <= |s| && r == s[..|r|]
    ensures c !in r
  {
    if s == [] || s[0] == c then [] else [s[0]] + Before(s[1..], c)
  }

  /** Everything after the first occurrence of c, or the empty string. */
  function After(s: string, c: char): (r: string)
    ensures |r| < |s| || r == []
    ensures c in s ==> s == Before(s, c) + [c] + r
  {
    if s == [] then [] else if s[0] == c then s[1..] else After(s[1..], c)
  }

  /** Python's s.split(c): the pieces between occurrences of c, in order. */
  function Split(s: string, c: char): (r: seq<string>)
    ensures |r| >= 1
    ensures forall i :: 0 <= i < |r| ==> c !in r[i]
    decreases |s|
  {
    if c in s then [Before(s, c)] + Split(After(s, c), c) else [s]
  }

  /** s is t behind leading zeros. */
  predicate ZeroPadded(s: string, t: string)
  {
    |t| <= |s| && s == Zeros(|s| - |t|) + t
  }

  /** A non-empty digit string is str() of its value behind leading zeros,
      so it is that value zero-filled to its own width. */
  lemma {:induction false} DigitsCanonical(s: string)
    requires AllDigits(s) && s != []
    ensures ZeroPadded(s, NatToString(DigitsValue(s)))
  {
    var init := s[..|s| - 1];
    if init == [] {
      OneDigitCanonical(s);
    } else {
      DigitsCanonical(init);
      SnocCanonical(s, init, s[|s| - 1]);
    }
  }

  lemma OneDigitCanonical(s: string)
    requires AllDigits(s) && |s| == 1
    ensures ZeroPadded(s, NatToString(DigitsValue(s)))
  {
    var d := DigitValue(s[0]);
    assert DigitChar(d) == s[0];
    assert s[..0] == [];
    assert DigitsValue(s) == d;
    PadZeros(s, [], s[0]);
  }

  /** One more digit after a canonical prefix keeps the string canonical. */
  lemma SnocCanonical(s: string, init: string, last: char)
    requires AllDigits(s) && AllDigits(init) && IsDigit(last) && init != [] && s == init + [last] && init == s[..|s| - 1]
    requires ZeroPadded(init, NatToString(DigitsValue(init)))
    ensures ZeroPadded(s, NatToString(DigitsValue(s)))
  {
    var d := DigitValue(last);
    assert DigitChar(d) == last;
    var t := NatToString(DigitsValue(s));
    var v := DigitsValue(init);
    var u := NatToString(v);
    assert DigitsValue(s) == v * 10 + d;
    NatToStringAppend(v, d);
    if v == 0 {
      assert init == Zeros(|init|) by {
        assert init == Zeros(|init| - 1) + ['0'];
      }
      assert t == [last];
      PadZeros(s, init, last);
    } else {
      assert t == u + [last];
      PadStep(s, init, last, u);
    }
  }

  /** str() of v followed by the digit d is str(v * 10 + d), but for v = 0. */
  lemma NatToStringAppend(v: nat, d: nat)
    requires d < 10
    ensures NatToString(v * 10 + d) == if v == 0 then [DigitChar(d)] else NatToString(v) + [DigitChar(d)]
  {
    var n := v * 10 + d;
    if v != 0 {
      assert n / 10 == v && n % 10 == d;
    }
  }

  /** A zero-padded u followed by last is u + [last] zero-padded. */
  lemma PadStep(s: string, init: string, last: char, u: string)
    requires s == init + [last] && ZeroPadded(init, u)
    ensures ZeroPadded(s, u + [last])
  {
    assert s == Zeros(|init| - |u|) + (u + [last]);
  }

  /** Zeros followed by last is [last] zero-padded. */
  lemma PadZeros(s: string, init: string, last: char)
    requires s == init + [last] && init == Zeros(|init|)
    ensures ZeroPadded(s, [last])
  {
  }

  lemma {:induction false} ZerosAll(z: string)
    requires forall i :: 0 <= i < |z| ==> z[i] == '0'
    ensures z == Zeros(|z|)
  {
    if z != [] {
      ZerosAll(z[..|z| - 1]);
      assert z == z[..|z| - 1] + ['0'];
    }
  }

  /** zfill to a digit string's own width gives it back from its value. */
  lemma ZFillCanonical(s: string)
    requires AllDigits(s) && s != []
    ensures ZFill(NatToString(DigitsValue(s)), |s|) == s
  {
    DigitsCanonical(s);
    ZFillPadded(s, NatToString(DigitsValue(s)));
  }

  /** A digit string that does not start with '0' is str() of its value. */
  lemma UnpaddedCanonical(s: string)
    requires AllDigits(s) && s != [] && s[0] != '0'
    ensures NatToString(DigitsValue(s)) == s
  {
    DigitsCanonical(s);
    UnpaddedIsWhole(s, NatToString(DigitsValue(s)));
  }

  lemma ZFillPadded(s: string, t: string)
    requires ZeroPadded(s, t)
    ensures ZFill(t, |s|) == s
  {
    if |s| == |t| {
      assert Zeros(0) + t == t;
    }
  }

  lemma UnpaddedIsWhole(s: string, t: string)
    requires ZeroPadded(s, t) && s != [] && s[0] != '0'
    ensures t == s
  {
    assert s[0] == '0' || |t| == |s|;
    assert Zeros(0) + t == t;
  }

  /** c.join(parts) */
  function JoinOn(parts: seq<string>, c: char): string
  {
    if parts == [] then "" else if |parts| == 1 then parts[0] else parts[0] + [c] + JoinOn(parts[1..], c)
  }

  /** Joining the pieces of a split with the separator restores the string. */
  lemma {:induction false} JoinSplit(s: string, c: char)
    ensures JoinOn(Split(s, c), c) == s
    decreases |s|
  {
    if c in s {
      var rest := After(s, c);
      JoinSplit(rest, c);
      assert Split(s, c)[1..] == Split(rest, c);
    }
  }

  /** Before(s, c) is all of s when c does not occur in it. */
  lemma {:induction false} BeforeAbsent(s: string, c: char)
    requires c !in s
    ensures Before(s, c) == s
  {
    if s != [] {
      BeforeAbsent(s[1..], c);
      assert s == [s[0]] + s[1..];
    }
  }
}
