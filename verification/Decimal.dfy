/** Python's `str` and `int` on integers, for decimal digits. */
module Decimal {
  import opened Options

  function DigitChar(d: nat): (c: char)
    requires d < 10
    ensures '0' <= c <= '9' && c as int - '0' as int == d
  {
    '0' + d as char
  }

  function Digits(n: nat): (s: string)
    ensures s != [] && forall i :: 0 <= i < |s| ==> '0' <= s[i] <= '9'
  {
    if n < 10 then [DigitChar(n)] else Digits(n / 10) + [DigitChar(n % 10)]
  }

  function Show(n: int): (s: string) {
    if n < 0 then "-" + Digits(-n) else Digits(n)
  }

  /** How integers are written: one digit as itself, a larger number as all but its last digit followed by
      that digit, and a negative number as a minus sign and its opposite. */
  lemma ShowMeans(n: nat, d: nat)
    requires d < 10
    ensures Show(d) == ['0' + d as char]
    ensures n > 0 ==> Show(10 * n + d) == Show(n) + ['0' + d as char]
    ensures n > 0 ==> Show(0 - n) == "-" + Show(n)
  {
    assert (10 * n + d) / 10 == n && (10 * n + d) % 10 == d;
  }

  // ----- reading

  predicate IsSpace(c: char) { c == ' ' || ('\t' <= c <= '\r') }

  predicate IsDigit(c: char) { '0' <= c <= '9' }

  /** Space, tab, line feed, vertical tab, form feed and carriage return are whitespace. */
  lemma SpacesMean(c: char)
    ensures IsSpace(c) <==> c as int == 32 || 9 <= c as int <= 13
  {
  }

  function StripLeft(s: string): (r: string)
    ensures |r| <= |s|
  {
    if s != [] && IsSpace(s[0]) then StripLeft(s[1..]) else s
  }

  function StripRight(s: string): (r: string)
    ensures |r| <= |s|
  {
    if s != [] && IsSpace(s[|s| - 1]) then StripRight(s[..|s| - 1]) else s
  }

  /** Digits, with single underscores allowed between digits. */
  function ReadDigits(s: string): (r: Option<nat>) {
    if s == [] || !IsDigit(s[|s| - 1]) then None
    else
      var d: nat := s[|s| - 1] as int - '0' as int;
      var front := s[..|s| - 1];
      if front == [] then Some(d)
      else
        var stem := if front[|front| - 1] == '_' then front[..|front| - 1] else front;
        var high := ReadDigits(stem);
        if high.None? then None else Some(10 * high.value + d)
  }

  /** `int(s)`: surrounding whitespace, an optional sign, then digits. */
  function Read(s: string): (r: Option<int>) {
    var t := StripRight(StripLeft(s));
    if t != [] && (t[0] == '-' || t[0] == '+') then
      var n := ReadDigits(t[1..]);
      if n.None? then None
      else
        var v: int := n.value;
        Some(if t[0] == '-' then -v else v)
    else
      var n := ReadDigits(t);
      if n.None? then None else Some(n.value)
  }

  lemma {:induction false} ReadDigitsShow(n: nat)
    ensures ReadDigits(Digits(n)) == Some(n)
  {
    if n >= 10 {
      var s := Digits(n);
      ReadDigitsShow(n / 10);
      assert s[..|s| - 1] == Digits(n / 10);
      assert n == 10 * (n / 10) + n % 10;
    }
  }

  /** Whitespace around a number does not matter. */
  lemma ReadTrims(a: string, s: string, b: string)
    requires s != [] && !IsSpace(s[0]) && !IsSpace(s[|s| - 1])
    requires (forall i :: 0 <= i < |a| ==> IsSpace(a[i])) && forall i :: 0 <= i < |b| ==> IsSpace(b[i])
    ensures Read(a + s + b) == Read(s)
  {
    hide StripLeft, StripRight, ReadDigits, IsSpace;
    TrimBoth(a, s, b);
    TrimBoth([], s, []);
    assert [] + s + [] == s;
  }

  lemma TrimBoth(a: string, s: string, b: string)
    requires s != [] && !IsSpace(s[0]) && !IsSpace(s[|s| - 1])
    requires (forall i :: 0 <= i < |a| ==> IsSpace(a[i])) && forall i :: 0 <= i < |b| ==> IsSpace(b[i])
    ensures StripRight(StripLeft(a + s + b)) == s
  {
    hide StripLeft, StripRight, IsSpace;
    TrimLeft(a, s + b);
    assert a + s + b == a + (s + b);
    TrimRight(s, b);
  }

  lemma {:induction false} TrimLeft(a: string, s: string)
    requires s != [] && !IsSpace(s[0]) && forall i :: 0 <= i < |a| ==> IsSpace(a[i])
    ensures StripLeft(a + s) == s
  {
    if a == [] {
      assert a + s == s;
    } else {
      assert (a + s)[1..] == a[1..] + s;
      TrimLeft(a[1..], s);
    }
  }

  lemma {:induction false} TrimRight(s: string, b: string)
    requires s != [] && !IsSpace(s[|s| - 1]) && forall i :: 0 <= i < |b| ==> IsSpace(b[i])
    ensures StripRight(s + b) == s
  {
    if b == [] {
      assert s + b == s;
    } else {
      assert (s + b)[..|s + b| - 1] == s + b[..|b| - 1];
      TrimRight(s, b[..|b| - 1]);
    }
  }

  /** What is not digits between optional signs and spaces is not a number: every character of a number is
      a digit, a sign, an underscore or a space, and there is at least one digit. */
  lemma ReadOnlyDigits(s: string)
    requires Read(s).Some?
    ensures forall i :: 0 <= i < |s| ==> IsDigit(s[i]) || s[i] in "+-_" || IsSpace(s[i])
    ensures exists i :: 0 <= i < |s| && IsDigit(s[i])
  {
    StripsSpaces(s);
    var left := StripLeft(s);
    var t := StripRight(left);
    StripsSpacesRight(left);
    var digits := if t[0] == '-' || t[0] == '+' then t[1..] else t;
    DigitsOnly(digits);
    var k := |s| - |left| + |t| - 1;
    assert s[k] == t[|t| - 1];
    forall i | 0 <= i < |s| ensures IsDigit(s[i]) || s[i] in "+-_" || IsSpace(s[i]) {
      var j := i - (|s| - |left|);
      if 0 <= j < |t| {
        assert s[i] == t[j];
        if |digits| < |t| && j > 0 {
          assert digits[j - 1] == t[j];
        }
      } else if j >= |t| {
        assert s[i] == left[j];
      }
    }
  }

  lemma {:induction false} StripsSpaces(s: string)
    ensures StripLeft(s) == s[|s| - |StripLeft(s)|..]
    ensures forall i :: 0 <= i < |s| - |StripLeft(s)| ==> IsSpace(s[i])
  {
    if s != [] && IsSpace(s[0]) {
      StripsSpaces(s[1..]);
    }
  }

  lemma {:induction false} StripsSpacesRight(s: string)
    ensures StripRight(s) == s[..|StripRight(s)|]
    ensures forall i :: |StripRight(s)| <= i < |s| ==> IsSpace(s[i])
  {
    if s != [] && IsSpace(s[|s| - 1]) {
      StripsSpacesRight(s[..|s| - 1]);
    }
  }

  lemma {:induction false} DigitsOnly(s: string)
    requires ReadDigits(s).Some?
    ensures s != [] && IsDigit(s[|s| - 1]) && forall i :: 0 <= i < |s| ==> IsDigit(s[i]) || s[i] == '_'
  {
    var front := s[..|s| - 1];
    if front != [] {
      var stem := if front[|front| - 1] == '_' then front[..|front| - 1] else front;
      DigitsOnly(stem);
      forall i | 0 <= i < |s| ensures IsDigit(s[i]) || s[i] == '_' {
        if i < |stem| {
          assert s[i] == stem[i];
        }
      }
    }
  }

  /** Reading back what was shown gives the same integer, negative ones included. */
  lemma ReadShow(n: int)
    ensures Read(Show(n)) == Some(n)
  {
    var s := Show(n);
    var digits := Digits(if n < 0 then -n else n);
    assert !IsSpace(s[0]) && !IsSpace(s[|s| - 1]);
    assert StripRight(StripLeft(s)) == s;
    ReadDigitsShow(if n < 0 then -n else n);
    if n < 0 {
      assert s[1..] == digits;
    }
  }
}
