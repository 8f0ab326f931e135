/** Printing and reading decimal numbers. */
module Decimals {
  import opened Texts
  import opened Wrappers

  predicate IsDigit(c: char) {
    '0' <= c <= '9'
  }

  function DigitChar(d: nat): (c: char)
    requires d < 10
    ensures IsDigit(c) && DigitValue(c) == d
  {
    '0' + d as char
  }

  function DigitValue(c: char): (d: nat)
    requires IsDigit(c)
    ensures d < 10
  {
    c as int - '0' as int
  }

  predicate AllDigits(s: string) {
    forall i :: 0 <= i < |s| ==> IsDigit(s[i])
  }

  function Digits(n: nat): (s: string)
    ensures s != "" && AllDigits(s)
  {
    if n < 10 then [DigitChar(n)] else Digits(n / 10) + [DigitChar(n % 10)]
  }

  function Value(s: string): nat
    requires AllDigits(s)
  {
    if s == "" then 0 else 10 * Value(s[..|s| - 1]) + DigitValue(s[|s| - 1])
  }

  lemma {:induction false} ValueOfDigits(n: nat)
    ensures Value(Digits(n)) == n
  {
    if n >= 10 {
      ValueOfDigits(n / 10);
      assert Digits(n)[..|Digits(n)| - 1] == Digits(n / 10);
    } else {
      assert Digits(n)[..0] == "";
    }
  }

  /** A printed number takes as many characters as it has digits. */
  lemma {:induction false} DigitsLength(n: nat)
    ensures n < 10 ==> |Digits(n)| == 1
    ensures 10 <= n < 100 ==> |Digits(n)| == 2
    ensures n >= 100 ==> |Digits(n)| >= 3
  {
    if n >= 10 {
      DigitsLength(n / 10);
    }
  }

  function Text(n: int): (s: string)
    ensures s != ""
  {
    if n < 0 then "-" + Digits(-n) else Digits(n)
  }

  /** Text of a number holds nothing but digits and a leading minus. */
  lemma TextChars(n: int)
    ensures forall i :: 0 <= i < |Text(n)| ==> IsDigit(Text(n)[i]) || (i == 0 && Text(n)[i] == '-')
  {
  }

  // ----- Python's int() -----

  predicate TwoMarks(s: string, i: nat)
    requires i < |s| - 1
  {
    s[i] == '_' && s[i + 1] == '_'
  }

  /** Digits, with single underscores between them. */
  predicate Numeral(s: string) {
    && s != "" && s[0] != '_' && s[|s| - 1] != '_'
    && (forall i :: 0 <= i < |s| ==> IsDigit(s[i]) || s[i] == '_')
    && (forall i :: 0 <= i < |s| - 1 ==> !TwoMarks(s, i))
  }

  function OnlyDigits(s: string): (d: string)
    ensures AllDigits(d)
    ensures AllDigits(s) ==> d == s
  {
    if s == "" then "" else (if IsDigit(s[0]) then [s[0]] else "") + OnlyDigits(s[1..])
  }

  predicate Signed(s: string) {
    s != "" && (s[0] == '-' || s[0] == '+')
  }

  function Unsigned(s: string): string {
    if Signed(s) then s[1..] else s
  }

  function ReadNumeral(s: string): Option<int> {
    if !Numeral(Unsigned(s)) then None
    else
      var value: int := Value(OnlyDigits(Unsigned(s)));
      Some(if s[0] == '-' then -value else value)
  }

  function PyInt(raw: string): Option<int> {
    ReadNumeral(Strip(raw))
  }

  lemma DigitsRead(n: nat)
    ensures Numeral(Digits(n)) && OnlyDigits(Digits(n)) == Digits(n) && Value(Digits(n)) == n
    ensures Strip(Digits(n)) == Digits(n)
  {
    ValueOfDigits(n);
    StripKeeps(Digits(n));
  }

  /** A sign in front of a plain numeral is read as one. */
  lemma SignRead(sign: char, body: string, n: nat)
    requires sign == '-' || sign == '+'
    requires Numeral(body) && AllDigits(body) && Value(body) == n
    ensures PyInt([sign] + body) == Some(if sign == '-' then -(n as int) else n)
  {
    var s := [sign] + body;
    assert Strip(s) == s by {
      assert s[|s| - 1] == body[|body| - 1];
      StripKeeps(s);
    }
    SignedNumeral(sign, body, n);
  }

  lemma SignedNumeral(sign: char, body: string, n: nat)
    requires sign == '-' || sign == '+'
    requires Numeral(body) && AllDigits(body) && Value(body) == n
    ensures ReadNumeral([sign] + body) == Some(if sign == '-' then -(n as int) else n)
  {
    assert OnlyDigits(body) == body;
    assert Unsigned([sign] + body) == body;
  }

  lemma PlainRead(s: string, n: nat)
    requires Numeral(s) && AllDigits(s) && Value(s) == n && Strip(s) == s
    ensures PyInt(s) == Some(n)
  {
    assert IsDigit(s[0]) && Unsigned(s) == s;
    assert ReadNumeral(s) == Some(n);
  }

  lemma UnsignedRead(n: nat)
    ensures PyInt(Digits(n)) == Some(n)
  {
    DigitsRead(n);
    PlainRead(Digits(n), n);
  }

  lemma SignedRead(sign: char, n: nat)
    requires sign == '-' || sign == '+'
    ensures PyInt([sign] + Digits(n)) == Some(if sign == '-' then -(n as int) else n)
  {
    DigitsRead(n);
    SignRead(sign, Digits(n), n);
  }

  lemma MinusRead(n: int)
    requires n > 0
    ensures PyInt(Text(-n)) == Some(-n)
  {
    SignedRead('-', n);
    assert Text(-n) == ['-'] + Digits(n);
  }

  /** Every printed number, negative ones too, is read back. */
  lemma PyIntText(n: int)
    ensures PyInt(Text(n)) == Some(n)
  {
    if n < 0 {
      MinusRead(-n);
    } else {
      UnsignedRead(n);
    }
  }

  lemma {:induction false} OnlyDigitsAppends(a: string, b: string)
    ensures OnlyDigits(a + b) == OnlyDigits(a) + OnlyDigits(b)
    decreases |a|
  {
    if a == "" {
      assert a + b == b;
    } else {
      assert (a + b)[1..] == a[1..] + b;
      OnlyDigitsAppends(a[1..], b);
    }
  }

  /** Of two runs of digits an underscore between them, and of any text the spaces around it, are passed over. */
  lemma SpellingsRead(a: string, b: string, c: char)
    requires AllDigits(a) && AllDigits(b) && a != "" && b != "" && IsSpace(c)
    ensures PyInt(a + "_" + b) == PyInt(a + b) == Some(Value(a + b))
    ensures PyInt([c] + a) == PyInt(a + [c]) == PyInt(a)
  {
    UnderscoreRead(a, b);
    StripKeeps(a + b);
    assert AllDigits(a + b);
    PlainRead(a + b, Value(a + b));
    StripIgnoresSpaces(a, c);
  }

  lemma UnderscoreNumeral(a: string, b: string)
    requires AllDigits(a) && AllDigits(b) && a != "" && b != ""
    ensures Numeral(a + "_" + b)
  {
    var s := a + "_" + b;
    assert s[0] == a[0] && s[|s| - 1] == b[|b| - 1];
    forall i: nat | i < |s| - 1 ensures !TwoMarks(s, i) {
      assert i < |a| ==> s[i] == a[i];
      assert i >= |a| ==> s[i + 1] == b[i - |a|];
    }
  }

  lemma UnderscoreDropped(a: string, b: string)
    requires AllDigits(a) && AllDigits(b)
    ensures OnlyDigits(a + "_" + b) == a + b
  {
    OnlyDigitsAppends(a + "_", b);
    OnlyDigitsAppends(a, "_");
    assert "_"[1..] == "";
    assert OnlyDigits("_") == "";
    assert a + "" == a;
  }

  lemma UnsignedNumeral(s: string)
    requires Numeral(s) && IsDigit(s[0]) && Strip(s) == s
    ensures PyInt(s) == Some(Value(OnlyDigits(s)))
  {
    assert Unsigned(s) == s;
  }

  lemma UnderscoreRead(a: string, b: string)
    requires AllDigits(a) && AllDigits(b) && a != "" && b != ""
    ensures PyInt(a + "_" + b) == Some(Value(a + b))
  {
    var s := a + "_" + b;
    UnderscoreNumeral(a, b);
    UnderscoreDropped(a, b);
    assert Strip(s) == s by {
      assert s[0] == a[0] && s[|s| - 1] == b[|b| - 1];
      StripKeeps(s);
    }
    assert s[0] == a[0];
    UnsignedNumeral(s);
  }

  // ----- Negative numbers -----

  predicate HasNonzero(s: string) {
    exists i :: 0 <= i < |s| && '1' <= s[i] <= '9'
  }

  lemma {:induction false} PositiveWhen(s: string)
    requires AllDigits(s)
    ensures Value(s) > 0 <==> HasNonzero(s)
    decreases |s|
  {
    if s != "" {
      var n := |s| - 1;
      PositiveWhen(s[..n]);
      assert s == s[..n] + [s[n]];
      assert HasNonzero(s) <==> HasNonzero(s[..n]) || '1' <= s[n] <= '9';
    }
  }

  lemma {:induction false} NonzeroKept(s: string)
    ensures HasNonzero(OnlyDigits(s)) <==> HasNonzero(s)
    decreases |s|
  {
    if s != "" {
      NonzeroKept(s[1..]);
      var rest := OnlyDigits(s[1..]);
      NonzeroFirst(s[0], s[1..]);
      NonzeroFirst(s[0], rest);
      assert s == [s[0]] + s[1..];
      assert OnlyDigits(s) == if IsDigit(s[0]) then [s[0]] + rest else rest;
    }
  }

  lemma NonzeroFirst(c: char, rest: string)
    ensures HasNonzero([c] + rest) <==> '1' <= c <= '9' || HasNonzero(rest)
  {
    var s := [c] + rest;
    if i :| 0 <= i < |rest| && '1' <= rest[i] <= '9' {
      assert s[i + 1] == rest[i];
    }
    if '1' <= c <= '9' {
      assert s[0] == c;
    }
  }

  lemma NegativeNumeral(s: string)
    requires ReadNumeral(s).Some?
    ensures ReadNumeral(s).value < 0 <==> s != "" && s[0] == '-' && HasNonzero(s)
  {
    var body := Unsigned(s);
    PositiveWhen(OnlyDigits(body));
    NonzeroKept(body);
    assert s == [s[0]] + s[1..];
    NonzeroFirst(s[0], s[1..]);
  }

  /** A spelling is read as a negative number exactly when, spaces aside, it starts with a minus and holds a digit
      other than zero. */
  lemma NegativeWhen(raw: string)
    requires PyInt(raw).Some?
    ensures PyInt(raw).value < 0 <==> Strip(raw) != "" && Strip(raw)[0] == '-' && HasNonzero(Strip(raw))
  {
    NegativeNumeral(Strip(raw));
  }

  // ----- Canonical spellings -----

  /** Digits without a leading zero, unless it is zero itself. */
  predicate Plain(s: string) {
    s != "" && AllDigits(s) && (s[0] == '0' ==> s == "0")
  }

  /** A plain number, or a minus and a plain number other than zero: no plus, no underscore, no space. */
  predicate Canonical(s: string) {
    Plain(s) || (s != "" && s[0] == '-' && Plain(s[1..]) && s[1..] != "0")
  }

  lemma {:induction false} DigitsOfValue(s: string)
    requires Plain(s)
    ensures Digits(Value(s)) == s
    decreases |s|
  {
    var n := |s| - 1;
    var front := s[..n];
    assert s == front + [s[n]];
    if n == 0 {
      assert Value(front) == 0;
    } else {
      assert front[0] == s[0] && Plain(front);
      DigitsOfValue(front);
      assert Value(front) > 0;
      assert Value(s) / 10 == Value(front) && Value(s) % 10 == DigitValue(s[n]);
    }
  }

  lemma {:induction false} DigitsPlain(n: nat)
    ensures Plain(Digits(n))
  {
    if n >= 10 {
      DigitsPlain(n / 10);
      ValueOfDigits(n / 10);
      assert Value("0") == 0;
      assert Digits(n)[0] == Digits(n / 10)[0];
    }
  }

  lemma TextCanonical(n: int)
    ensures Canonical(Text(n))
  {
    if n < 0 {
      DigitsPlain(-n);
      ValueOfDigits(-n);
      assert Value("0") == 0;
      assert Text(n)[1..] == Digits(-n);
    } else {
      DigitsPlain(n);
    }
  }

  lemma CanonicalRead(s: string)
    requires Canonical(s)
    ensures PyInt(s).Some? && Text(PyInt(s).value) == s
  {
    if Plain(s) {
      DigitsOfValue(s);
      PyIntText(Value(s));
    } else {
      DigitsOfValue(s[1..]);
      var n: int := Value(s[1..]);
      assert n != 0;
      assert s == "-" + s[1..] == Text(-n);
      PyIntText(-n);
    }
  }

  /** Of the spellings of a number that `int` reads, printing gives back exactly the canonical one. */
  lemma PrintedWhenCanonical(s: string)
    requires PyInt(s).Some?
    ensures Text(PyInt(s).value) == s <==> Canonical(s)
  {
    TextCanonical(PyInt(s).value);
    if Canonical(s) {
      CanonicalRead(s);
    }
  }
}
