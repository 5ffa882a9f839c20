/** Page cursors: decimal text of an identifier, and the parsing the services do. */
module Cursors {
  import opened Common

  datatype CursorError = InvalidCursor

  function Digit(d: int): char
    requires 0 <= d < 10
  {
    '0' + d as char
  }

  predicate IsDigit(c: char) {
    '0' <= c <= '9'
  }

  predicate AllDigits(s: string) {
    forall i :: 0 <= i < |s| ==> IsDigit(s[i])
  }

  /** strconv.FormatInt(n, 10) for a non-negative n. */
  function FormatInt(n: nat): string {
    if n < 10 then [Digit(n)] else FormatInt(n / 10) + [Digit(n % 10)]
  }

  function DigitsValue(s: string): nat
    requires AllDigits(s)
  {
    if s == [] then 0
    else 10 * DigitsValue(s[..|s| - 1]) + (s[|s| - 1] as int - '0' as int)
  }

  /** strconv.ParseInt(s, 10, 64): optional sign, at least one digit, int64 range. */
  function ParseInt(s: string): Option<int> {
    var signed := s != "" && (s[0] == '+' || s[0] == '-');
    var digits := if signed then s[1..] else s;
    if digits == "" || !AllDigits(digits) then None
    else
      var value: int := if signed && s[0] == '-' then 0 - DigitsValue(digits) else DigitsValue(digits);
      if -MAX_INT64 - 1 <= value <= MAX_INT64 then Some(value) else None
  }

  /** unicode.IsSpace, which strings.TrimSpace uses. */
  predicate IsSpace(c: char) {
    var u := c as int;
    9 <= u <= 13 || u == 0x20 || u == 0x85 || u == 0xA0 || u == 0x1680 || 0x2000 <= u <= 0x200A
    || u == 0x2028 || u == 0x2029 || u == 0x202F || u == 0x205F || u == 0x3000
  }

  predicate IsBlank(s: string) {
    forall i :: 0 <= i < |s| ==> IsSpace(s[i])
  }

  /** parseCursor of the feed and the cursor half of normalizeChatPage. */
  function ParseCursor(s: string): (r: Result<int, CursorError>)
    ensures r.Success? ==> 0 <= r.value <= MAX_INT64
  {
    if IsBlank(s) then Success(0)
    else
      match ParseInt(s)
      case None => Failure(InvalidCursor)
      case Some(value) => if value < 0 then Failure(InvalidCursor) else Success(value)
  }

  lemma {:induction false} FormatIsDigits(n: nat)
    ensures FormatInt(n) != "" && AllDigits(FormatInt(n))
    ensures DigitsValue(FormatInt(n)) == n
  {
    if n >= 10 {
      FormatIsDigits(n / 10);
      assert FormatInt(n)[..|FormatInt(n)| - 1] == FormatInt(n / 10);
    }
  }

  lemma NumberIsNotBlank(s: string)
    requires s != "" && (IsDigit(s[0]) || s[0] == '+' || s[0] == '-')
    ensures !IsBlank(s)
  {
    assert !IsSpace(s[0]);
  }

  /** A cursor the server emits is read back as the same identifier. */
  lemma CursorRoundTrip(n: nat)
    requires n <= MAX_INT64
    ensures ParseCursor(FormatInt(n)) == Success(n)
  {
    FormatIsDigits(n);
    NumberIsNotBlank(FormatInt(n));
  }

  function Zeros(k: nat): string {
    seq(k, i => '0')
  }

  ghost predicate ZerosThenCanonical(s: string, v: nat) {
    exists k: nat :: s == Zeros(k) + FormatInt(v)
  }

  /** Text of digits has value v exactly when it is the canonical text of v
      after some leading zeros. */
  lemma DigitsAreZerosThenCanonical(s: string, v: nat)
    requires s != "" && AllDigits(s)
    ensures DigitsValue(s) == v <==> ZerosThenCanonical(s, v)
  {
    ValueIsCanonical(s);
    if ZerosThenCanonical(s, v) {
      var k: nat :| s == Zeros(k) + FormatInt(v);
      ZerosThenCanonicalValue(k, v);
    }
  }

  lemma {:induction false} ValueIsCanonical(s: string)
    requires s != "" && AllDigits(s)
    ensures ZerosThenCanonical(s, DigitsValue(s))
  {
    var body, last := s[..|s| - 1], s[|s| - 1] as int - '0' as int;
    assert s == body + [Digit(last)];
    var u := DigitsValue(body);
    assert DigitsValue(s) == 10 * u + last;
    if body == "" {
      assert s == Zeros(0) + FormatInt(last);
    } else {
      ValueIsCanonical(body);
      AppendDigit(body, u, last);
    }
  }

  lemma AppendDigit(body: string, u: nat, last: int)
    requires 0 <= last < 10 && ZerosThenCanonical(body, u)
    ensures ZerosThenCanonical(body + [Digit(last)], 10 * u + last)
  {
    var k: nat :| body == Zeros(k) + FormatInt(u);
    if u == 0 {
      assert body + [Digit(last)] == Zeros(k + 1) + FormatInt(last);
    } else {
      CanonicalStep(u, last);
      assert body + [Digit(last)] == Zeros(k) + FormatInt(10 * u + last);
    }
  }

  lemma CanonicalStep(u: nat, last: int)
    requires u > 0 && 0 <= last < 10
    ensures FormatInt(10 * u + last) == FormatInt(u) + [Digit(last)]
  {
    var v := 10 * u + last;
    assert v / 10 == u && v % 10 == last;
  }

  lemma {:induction false} ZerosThenCanonicalValue(k: nat, v: nat)
    ensures AllDigits(Zeros(k) + FormatInt(v)) && DigitsValue(Zeros(k) + FormatInt(v)) == v
    decreases k + v
  {
    FormatIsDigits(v);
    var s := Zeros(k) + FormatInt(v);
    if v >= 10 {
      ZerosThenCanonicalValue(k, v / 10);
      assert s[..|s| - 1] == Zeros(k) + FormatInt(v / 10);
    } else {
      assert s[..|s| - 1] == Zeros(k);
      ZerosAreZero(k);
    }
  }

  lemma {:induction false} ZerosAreZero(k: nat)
    ensures AllDigits(Zeros(k)) && DigitsValue(Zeros(k)) == 0
  {
    if k > 0 {
      assert Zeros(k)[..k - 1] == Zeros(k - 1);
      ZerosAreZero(k - 1);
    }
  }

  /** Unsigned digit text: which cursors are accepted, and as what. */
  lemma AcceptedDigitCursors(s: string, v: nat)
    requires s != "" && AllDigits(s)
    ensures ParseCursor(s) == Success(v) <==>
            v <= 0x7fff_ffff_ffff_ffff && ZerosThenCanonical(s, v)
  {
    NumberIsNotBlank(s);
    DigitsAreZerosThenCanonical(s, v);
  }

  /** No cursor, or one of white space, starts at the beginning. */
  lemma BlankCursorIsStart(s: string)
    requires forall i :: 0 <= i < |s| ==> s[i] in {' ', '\t', '\n', '\r'}
    ensures ParseCursor(s) == Success(0)
  {
  }

  /** A plus sign changes nothing, and minus zero is zero. */
  lemma SignedCursors(digits: string)
    requires digits != "" && AllDigits(digits)
    ensures ParseCursor("+" + digits) == ParseCursor(digits)
    ensures ParseCursor("-" + digits) == if digits == Zeros(|digits|) then Success(0) else Failure(InvalidCursor)
  {
    NumberIsNotBlank(digits);
    NumberIsNotBlank("+" + digits);
    NumberIsNotBlank("-" + digits);
    ZeroShape(digits);
    assert ("+" + digits)[1..] == digits && ("-" + digits)[1..] == digits;
  }

  lemma UnsignedShape(s: string)
    requires !IsBlank(s) && !(s != "" && (s[0] == '+' || s[0] == '-'))
    ensures ParseCursor(s).Success? <==> s != "" && AllDigits(s) && DigitsValue(s) <= MAX_INT64
  {
  }

  lemma PlusShape(s: string)
    requires !IsBlank(s) && s != "" && s[0] == '+'
    ensures ParseCursor(s).Success? <==> |s| > 1 && AllDigits(s[1..]) && DigitsValue(s[1..]) <= MAX_INT64
    ensures !AllDigits(s)
  {
    assert !IsDigit(s[0]);
  }

  lemma ZerosSnoc(k: nat)
    ensures Zeros(k) + FormatInt(0) == Zeros(k + 1)
  {
    assert FormatInt(0) == ['0'];
  }

  lemma ZerosLength(k: nat)
    ensures |Zeros(k)| == k
  {
  }

  /** Only zeros have the value zero. */
  lemma ZeroShape(digits: string)
    requires digits != "" && AllDigits(digits)
    ensures DigitsValue(digits) == 0 <==> digits == Zeros(|digits|)
  {
    DigitsAreZerosThenCanonical(digits, 0);
    ZerosSnoc(|digits| - 1);
    if ZerosThenCanonical(digits, 0) {
      var k: nat :| digits == Zeros(k) + FormatInt(0);
      ZerosSnoc(k);
      ZerosLength(k + 1);
    }
  }

  lemma MinusShape(s: string)
    requires !IsBlank(s) && s != "" && s[0] == '-'
    ensures ParseCursor(s).Success? <==> |s| > 1 && s[1..] == Zeros(|s| - 1)
    ensures !AllDigits(s)
  {
    assert !IsDigit(s[0]);
    if s[1..] != "" && AllDigits(s[1..]) {
      ZeroShape(s[1..]);
    }
  }

  /** Every accepted non-blank cursor is digit text with an optional sign, and a
      minus sign is accepted in front of zero only. */
  lemma AcceptedCursorShape(s: string)
    requires !IsBlank(s)
    ensures ParseCursor(s).Success? <==>
            || (s != "" && AllDigits(s) && DigitsValue(s) <= MAX_INT64)
            || (|s| > 1 && s[0] == '+' && AllDigits(s[1..]) && DigitsValue(s[1..]) <= MAX_INT64)
            || (|s| > 1 && s[0] == '-' && s[1..] == Zeros(|s| - 1))
  {
    if s != "" && s[0] == '+' {
      PlusShape(s);
    } else if s != "" && s[0] == '-' {
      MinusShape(s);
    } else {
      UnsignedShape(s);
    }
  }
}
