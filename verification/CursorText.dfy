/** Numbers written out: binlog file names, LSNs and GTIDs read back to the numbers they were written for. */
module CursorTexts {
  import opened Outcomes
  import opened Cursor
  import opened Checkpoints

  /** A digit of radix 10 or 16, in either letter case. */
  function Digit(d: nat, upper: bool): Byte
    requires d < 16
  {
    if d < 10 then 48 + d else if upper then 55 + d else 87 + d
  }

  function Numeral(n: nat, radix: nat, upper: bool): (text: seq<Byte>)
    requires 2 <= radix <= 16
    ensures text != []
    decreases n
  {
    if n < radix then [Digit(n, upper)] else Numeral(n / radix, radix, upper) + [Digit(n % radix, upper)]
  }

  /** Leading zeros, as in `000001`. */
  function Zeros(k: nat): (zeros: seq<Byte>)
    ensures |zeros| == k
  {
    if k == 0 then [] else Zeros(k - 1) + [48]
  }

  lemma {:induction false} NumeralIsRead(n: nat, radix: nat, upper: bool)
    requires radix == 10 || radix == 16
    ensures ParseDigits(Numeral(n, radix, upper), radix) == Some(n)
    decreases n
  {
    var text := Numeral(n, radix, upper);
    if n < radix {
      assert text[..0] == [];
    } else {
      NumeralIsRead(n / radix, radix, upper);
      assert text[..|text| - 1] == Numeral(n / radix, radix, upper);
    }
  }

  lemma {:induction false} ZerosAreRead(k: nat, radix: nat)
    requires radix == 10 || radix == 16
    ensures ParseDigits(Zeros(k), radix) == Some(0)
  {
    if k > 0 {
      ZerosAreRead(k - 1, radix);
      var zeros := Zeros(k - 1) + [48];
      assert zeros[..|zeros| - 1] == Zeros(k - 1) && DigitValue(zeros[|zeros| - 1], radix) == Some(0);
    }
  }

  lemma {:induction false} PaddedIsRead(k: nat, digits: seq<Byte>, radix: nat)
    requires radix == 10 || radix == 16
    ensures ParseDigits(Zeros(k) + digits, radix) == ParseDigits(digits, radix)
    decreases |digits|
  {
    if digits == [] {
      ZerosAreRead(k, radix);
      assert Zeros(k) + digits == Zeros(k);
    } else {
      var text := Zeros(k) + digits;
      PaddedIsRead(k, digits[..|digits| - 1], radix);
      assert text[..|text| - 1] == Zeros(k) + digits[..|digits| - 1];
    }
  }

  lemma {:induction false} OnlyDigits(n: nat, radix: nat, upper: bool, b: Byte)
    requires (radix == 10 || radix == 16) && b < 48
    ensures b !in Numeral(n, radix, upper)
    decreases n
  {
    if n >= radix {
      OnlyDigits(n / radix, radix, upper, b);
    }
  }

  lemma {:induction false} NoColon(n: nat)
    ensures COLON !in Numeral(n, 10, false)
    decreases n
  {
    if n >= 10 {
      NoColon(n / 10);
    }
  }

  lemma {:induction false} OnlyZeros(k: nat, b: Byte)
    requires b != 48
    ensures b !in Zeros(k)
  {
    if k > 0 {
      OnlyZeros(k - 1, b);
    }
  }

  lemma {:induction false} UnsignedIsRead(k: nat, n: nat, radix: nat, upper: bool)
    requires (radix == 10 || radix == 16) && n <= U64_MAX
    ensures ParseUnsigned(Zeros(k) + Numeral(n, radix, upper), radix) == Some(n)
  {
    var text := Zeros(k) + Numeral(n, radix, upper);
    NumeralIsRead(n, radix, upper);
    PaddedIsRead(k, Numeral(n, radix, upper), radix);
    OnlyZeros(k, PLUS);
    OnlyDigits(n, radix, upper, PLUS);
    assert text[0] in text;
  }

  /** A plus sign is allowed, a number of more than 64 bits is not. */
  lemma {:induction false} UnsignedLimits(k: nat, n: nat, radix: nat, upper: bool)
    requires radix == 10 || radix == 16
    ensures n <= U64_MAX ==> ParseUnsigned([PLUS] + (Zeros(k) + Numeral(n, radix, upper)), radix) == Some(n)
    ensures n > U64_MAX ==> ParseUnsigned(Zeros(k) + Numeral(n, radix, upper), radix) == None
  {
    var text := Zeros(k) + Numeral(n, radix, upper);
    NumeralIsRead(n, radix, upper);
    PaddedIsRead(k, Numeral(n, radix, upper), radix);
    OnlyZeros(k, PLUS);
    OnlyDigits(n, radix, upper, PLUS);
    assert text[0] in text && ([PLUS] + text)[1..] == text;
  }

  lemma {:induction false} SplitLastAt(front: seq<Byte>, separator: Byte, back: seq<Byte>)
    requires separator !in back
    ensures SplitLast(front + [separator] + back, separator) == Some((front, back))
    decreases |back|
  {
    var text := front + [separator] + back;
    if back == [] {
      assert text[..|text| - 1] == front;
    } else {
      var last := |back| - 1;
      SplitLastAt(front, separator, back[..last]);
      assert text[..|text| - 1] == front + [separator] + back[..last];
      assert back[..last] + [back[last]] == back;
    }
  }

  /** A binlog file name, with any padding or a plus sign, reads back to its prefix and 64-bit number. */
  lemma {:induction false} FileNameIsRead(prefix: seq<Byte>, zeros: nat, n: nat)
    ensures
      var digits := Zeros(zeros) + Numeral(n, 10, false);
      if n <= U64_MAX then
        && SplitName(prefix + [DOT] + digits) == Some((prefix, n))
        && SplitName(prefix + [DOT] + ([PLUS] + digits)) == Some((prefix, n))
      else SplitName(prefix + [DOT] + digits) == None
  {
    var digits := Zeros(zeros) + Numeral(n, 10, false);
    OnlyZeros(zeros, DOT);
    OnlyDigits(n, 10, false, DOT);
    SplitLastAt(prefix, DOT, digits);
    SplitLastAt(prefix, DOT, [PLUS] + digits);
    UnsignedLimits(zeros, n, 10, false);
    if n <= U64_MAX {
      UnsignedIsRead(zeros, n, 10, false);
    }
  }

  function LsnText(high: nat, low: nat, upper: bool): seq<Byte> {
    Numeral(high, 16, upper) + [SLASH] + Numeral(low, 16, upper)
  }

  lemma {:induction false} HalvesAreRead(high: nat, low: nat, upper: bool)
    requires high <= U64_MAX && low <= U64_MAX
    ensures SplitFirst(LsnText(high, low, upper), SLASH) == Some((Numeral(high, 16, upper), Numeral(low, 16, upper)))
    ensures ParseUnsigned(Numeral(high, 16, upper), 16) == Some(high)
    ensures ParseUnsigned(Numeral(low, 16, upper), 16) == Some(low)
  {
    OnlyDigits(high, 16, upper, SLASH);
    SplitAt(Numeral(high, 16, upper), SLASH, Numeral(low, 16, upper));
    UnsignedIsRead(0, high, 16, upper);
    UnsignedIsRead(0, low, 16, upper);
    assert Zeros(0) + Numeral(high, 16, upper) == Numeral(high, 16, upper);
    assert Zeros(0) + Numeral(low, 16, upper) == Numeral(low, 16, upper);
  }

  lemma {:induction false} LsnOffset(high: nat, low: nat, upper: bool)
    requires high <= U64_MAX && low <= U32_MAX
    ensures FilePosition(PostgresqlLsnCursor(LsnText(high, low, upper)))
            == Ok(Position(LsnText(high, low, upper), high % 0x1_0000_0000 * 0x1_0000_0000 + low))
  {
    HalvesAreRead(high, low, upper);
  }

  /** An LSN written as two hexadecimal halves of 32 bits reads back to its number, in both readings. */
  lemma {:induction false} LsnIsRead(high: nat, low: nat, upper: bool)
    requires high <= U32_MAX && low <= U32_MAX
    ensures
      var p := Position(LsnText(high, low, upper), high * 0x1_0000_0000 + low);
      FilePosition(PostgresqlLsnCursor(p.file)) == Ok(p) && ValidCheckpointPosition(PostgresqlLsn, p)
  {
    LsnOffset(high, low, upper);
    HalvesAreRead(high, low, upper);
    LsnReadingsAgree(LsnText(high, low, upper));
    assert high % 0x1_0000_0000 == high;
  }

  /** With an upper half above 32 bits, the cursor drops its high bits and the checkpoint refuses the position. */
  lemma {:induction false} WideLsnLosesBits(high: nat, low: nat, upper: bool)
    requires U32_MAX < high <= U64_MAX && low <= U32_MAX
    ensures
      var p := Position(LsnText(high, low, upper), high % 0x1_0000_0000 * 0x1_0000_0000 + low);
      FilePosition(PostgresqlLsnCursor(p.file)) == Ok(p) && !ValidCheckpointPosition(PostgresqlLsn, p)
  {
    LsnOffset(high, low, upper);
    HalvesAreRead(high, low, upper);
    LsnReadingsAgree(LsnText(high, low, upper));
  }

  /** A text is one GTID if it is without commas and ends in a colon and a positive number. */
  lemma {:induction false} GtidIsSingle(front: Id, n: nat)
    requires n <= U64_MAX
    ensures SingleGtid(front + [COLON] + Numeral(n, 10, false)) <==> COMMA !in front && n > 0
  {
    var text := front + [COLON] + Numeral(n, 10, false);
    NoColon(n);
    SplitLastAt(front, COLON, Numeral(n, 10, false));
    UnsignedIsRead(0, n, 10, false);
    assert Zeros(0) + Numeral(n, 10, false) == Numeral(n, 10, false);
    OnlyDigits(n, 10, false, COMMA);
    assert COMMA in text <==> COMMA in front;
  }
}
