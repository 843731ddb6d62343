/** Integers as text: what std::format("{}") writes and what std::from_chars reads back. */
module DecimalText {
  import opened Wrappers
  import opened CalendarTypes

  predicate IsDigit(c: char) { '0' <= c <= '9' }

  predicate AllDigits(s: string) { forall i :: 0 <= i < |s| ==> IsDigit(s[i]) }

  function DigitChar(d: nat): char
    requires d < 10
  {
    ('0' as int + d) as char
  }

  function Digits(n: nat): (s: string)
    ensures s != [] && AllDigits(s)
  {
    if n < 10 then [DigitChar(n)] else Digits(n / 10) + [DigitChar(n % 10)]
  }

  function Decimal(x: int): (s: string)
    ensures '|' !in s
  {
    if x < 0 then "-" + Digits(-x) else Digits(x)
  }

  function DigitsValue(s: string): (value: int)
    requires AllDigits(s)
    ensures 0 <= value
  {
    if s == [] then 0 else DigitsValue(s[..|s| - 1]) * 10 + (s[|s| - 1] as int - '0' as int)
  }

  /** std::from_chars into a std::int64_t, required to consume the whole view. */
  function FromChars(s: string): (r: Option<UnixSeconds>) {
    var negative := s != [] && s[0] == '-';
    var digits := if negative then s[1..] else s;
    if digits == [] || !AllDigits(digits) then None
    else
      var value: int := if negative then -DigitsValue(digits) else DigitsValue(digits);
      if INT64_MIN <= value <= INT64_MAX then Some(value) else None
  }

  lemma {:induction false} DigitsValueOfDigits(n: nat)
    ensures DigitsValue(Digits(n)) == n
  {
    if n >= 10 {
      DigitsValueOfDigits(n / 10);
      assert Digits(n)[..|Digits(n)| - 1] == Digits(n / 10);
    }
  }

  /** Reading back what was written returns the same number, whatever its sign. */
  lemma FromCharsOfDecimal(x: UnixSeconds)
    ensures FromChars(Decimal(x)) == Some(x)
  {
    var magnitude: int := if x < 0 then -(x as int) else x;
    DigitsValueOfDigits(magnitude);
    if x < 0 {
      assert Decimal(x)[1..] == Digits(magnitude);
    } else {
      assert IsDigit(Digits(magnitude)[0]);
    }
  }

  lemma DecimalInjective(x: int, y: int)
    requires Decimal(x) == Decimal(y)
    ensures x == y
  {
    assert IsDigit(Digits(if x < 0 then -x else x)[0]);
    assert IsDigit(Digits(if y < 0 then -y else y)[0]);
    if x < 0 {
      assert Decimal(x)[1..] == Digits(-x) && Decimal(y)[1..] == Digits(-y);
      DigitsValueOfDigits(-x);
      DigitsValueOfDigits(-y);
    } else {
      DigitsValueOfDigits(x);
      DigitsValueOfDigits(y);
    }
  }

  // ---- everything that can be read ----

  function Zeros(n: nat): (s: string)
    ensures |s| == n && AllDigits(s)
  {
    seq(n, _ => '0')
  }

  lemma {:induction false} ValueOfPadded(zeros: nat, n: nat)
    ensures DigitsValue(Zeros(zeros) + Digits(n)) == n
    decreases n, zeros
  {
    var s := Zeros(zeros) + Digits(n);
    if n >= 10 {
      ValueOfPadded(zeros, n / 10);
      assert s[..|s| - 1] == Zeros(zeros) + Digits(n / 10);
    } else {
      assert s[..|s| - 1] == Zeros(zeros);
      if zeros > 0 {
        ValueOfPadded(zeros - 1, 0);
        assert Zeros(zeros) == Zeros(zeros - 1) + Digits(0);
      }
    }
  }

  lemma {:induction false} DigitsArePadded(s: string) returns (zeros: nat)
    requires s != [] && AllDigits(s)
    ensures s == Zeros(zeros) + Digits(DigitsValue(s))
  {
    var front, last := s[..|s| - 1], s[|s| - 1];
    zeros := 0;
    assert s == front + [last];
    if front == [] {
      assert s == [last] && Digits(DigitsValue(s)) == [last];
    } else {
      zeros := DigitsArePadded(front);
      if DigitsValue(front) == 0 {
        zeros := zeros + 1;
        assert Zeros(zeros) == front;
      }
    }
  }

  /** A number may have zeros in front of it, and so may a minus sign stand before zero. */
  predicate Spells(s: string, negative: bool, zeros: nat, x: int) {
    && s == (if negative then "-" else "") + Zeros(zeros) + Digits(if x < 0 then -x else x)
    && (x < 0 ==> negative) && (x > 0 ==> !negative)
  }

  lemma SpelledIsRead(s: string, negative: bool, zeros: nat, x: UnixSeconds)
    requires Spells(s, negative, zeros, x)
    ensures FromChars(s) == Some(x)
  {
    var magnitude: nat := if x < 0 then -(x as int) else x;
    var digits := Zeros(zeros) + Digits(magnitude);
    ValueOfPadded(zeros, magnitude);
    assert digits != [] && IsDigit(digits[0]);
    if negative {
      assert s == ['-'] + digits && s[1..] == digits;
    } else {
      assert s == digits;
    }
  }

  /** A text is read as a number exactly if it is the number's decimal text, apart from that. */
  lemma FromCharsIff(s: string, x: UnixSeconds)
    ensures FromChars(s) == Some(x) <==> exists negative, zeros :: Spells(s, negative, zeros, x)
  {
    if FromChars(s) == Some(x) {
      var negative := s[0] == '-';
      var digits := if negative then s[1..] else s;
      var zeros := DigitsArePadded(digits);
      assert Spells(s, negative, zeros, x);
    } else if negative, zeros :| Spells(s, negative, zeros, x) {
      SpelledIsRead(s, negative, zeros, x);
    }
  }
}
