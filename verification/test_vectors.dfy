/** The sample icons of the script's self-test, followed through the whole
    pipeline: the literal path data tokenizes to the expected commands, the
    commands evaluate to the expected outline points, and the classifier
    calls the left icon a left caret (-1) and the right icon a right caret
    (1). */
module TestVectors {
  import opened Wrappers
  import opened PathSyntax
  import opened PathCommands
  import opened PathLayout
  import opened PathCoordinates
  import opened Means
  import opened ArrowDirection
  import opened SampleIcons

  const LeftCommands := [
    Command('M', ["15.41", "16.09"]),
    Command('l', ["-4.58", "-4.59"]),
    Command('l', ["4.58", "-4.59"]),
    Command('L', ["14", "5.5"]),
    Command('l', ["-6", "6"]),
    Command('l', ["6", "6"]),
    Command('z', [])
  ]

  const LeftPoints := [
    Point(15.41, 16.09),
    Point(10.83, 11.5),
    Point(15.41, 6.91),
    Point(14.0, 5.5),
    Point(8.0, 11.5),
    Point(14.0, 17.5),
    Point(15.41, 16.09)
  ]

  const RightCommands := [
    Command('M', ["8.59", "16.34"]),
    Command('l', ["4.58", "-4.59"]),
    Command('l', ["-4.58", "-4.59"]),
    Command('L', ["10", "5.75"]),
    Command('l', ["6", "6"]),
    Command('l', ["-6", "6"]),
    Command('z', [])
  ]

  const RightPoints := [
    Point(8.59, 16.34),
    Point(13.17, 11.75),
    Point(8.59, 7.16),
    Point(10.0, 5.75),
    Point(16.0, 11.75),
    Point(10.0, 17.75),
    Point(8.59, 16.34)
  ]

  // Numerals

  lemma OneDigit(s: string)
    requires |s| == 1 && AllDigits(s)
    ensures DigitsValue(s) == s[0] as int - '0' as int
  {
    assert s[..0] == [];
  }

  lemma TwoDigits(s: string)
    requires |s| == 2 && AllDigits(s)
    ensures DigitsValue(s) == 10 * (s[0] as int - '0' as int) + (s[1] as int - '0' as int)
  {
    assert s[..1] == [s[0]];
    OneDigit(s[..1]);
  }

  lemma Decimal(s: string, ip: string, fp: string, v: real)
    requires s == ip + "." + fp && AllDigits(ip) && |fp| > 0 && AllDigits(fp)
    requires v == DigitsValue(ip) as real + DigitsValue(fp) as real / Pow10(|fp|) as real
    ensures IsNumeral(s) && NumeralValue(s) == v
  {
    DecimalNumeral(ip, fp);
  }

  /** A numeral of the shape `dd.dd`. */
  lemma Decimal22(s: string, v: real)
    requires |s| == 5 && AllDigits(s[..2]) && s[2] == '.' && AllDigits(s[3..])
    requires v == (10 * (s[0] as int - '0' as int) + (s[1] as int - '0' as int)) as real
                  + (10 * (s[3] as int - '0' as int) + (s[4] as int - '0' as int)) as real / 100.0
    ensures IsNumeral(s) && NumeralValue(s) == v
  {
    TwoDigits(s[..2]);
    TwoDigits(s[3..]);
    assert s == s[..2] + "." + s[3..];
    Decimal(s, s[..2], s[3..], v);
  }

  /** A numeral of the shape `d.dd`. */
  lemma Decimal12(s: string, v: real)
    requires |s| == 4 && AllDigits(s[..1]) && s[1] == '.' && AllDigits(s[2..])
    requires v == (s[0] as int - '0' as int) as real
                  + (10 * (s[2] as int - '0' as int) + (s[3] as int - '0' as int)) as real / 100.0
    ensures IsNumeral(s) && NumeralValue(s) == v
  {
    OneDigit(s[..1]);
    TwoDigits(s[2..]);
    assert s == s[..1] + "." + s[2..];
    Decimal(s, s[..1], s[2..], v);
  }

  lemma Numeral10()
    ensures IsNumeral("10") && NumeralValue("10") == 10.0
  {
    TwoDigits("10");
    IntegerNumeral("10");
  }

  lemma Numeral14()
    ensures IsNumeral("14") && NumeralValue("14") == 14.0
  {
    TwoDigits("14");
    IntegerNumeral("14");
  }

  lemma Numeral15_41()
    ensures IsNumeral("15.41") && NumeralValue("15.41") == 15.41
  {
    Decimal22("15.41", 15.41);
  }

  lemma Numeral16_09()
    ensures IsNumeral("16.09") && NumeralValue("16.09") == 16.09
  {
    Decimal22("16.09", 16.09);
  }

  lemma Numeral16_34()
    ensures IsNumeral("16.34") && NumeralValue("16.34") == 16.34
  {
    Decimal22("16.34", 16.34);
  }

  lemma Numeral4_58()
    ensures IsNumeral("4.58") && NumeralValue("4.58") == 4.58
  {
    Decimal12("4.58", 4.58);
  }

  lemma Numeral4_59()
    ensures IsNumeral("4.59") && NumeralValue("4.59") == 4.59
  {
    Decimal12("4.59", 4.59);
  }

  lemma Numeral5_5()
    ensures IsNumeral("5.5") && NumeralValue("5.5") == 5.5
  {
    OneDigit("5");
    assert "5.5" == "5" + "." + "5";
    Decimal("5.5", "5", "5", 5.5);
  }

  lemma Numeral5_75()
    ensures IsNumeral("5.75") && NumeralValue("5.75") == 5.75
  {
    Decimal12("5.75", 5.75);
  }

  lemma Numeral6()
    ensures IsNumeral("6") && NumeralValue("6") == 6.0
  {
    OneDigit("6");
    IntegerNumeral("6");
  }

  lemma Numeral8_59()
    ensures IsNumeral("8.59") && NumeralValue("8.59") == 8.59
  {
    Decimal12("8.59", 8.59);
  }

  lemma NumeralMinus4_58()
    ensures IsNumeral("-4.58") && NumeralValue("-4.58") == -4.58
  {
    Numeral4_58();
    NegativeNumeral("4.58");
    assert "-4.58" == "-" + "4.58";
  }

  lemma NumeralMinus4_59()
    ensures IsNumeral("-4.59") && NumeralValue("-4.59") == -4.59
  {
    Numeral4_59();
    NegativeNumeral("4.59");
    assert "-4.59" == "-" + "4.59";
  }

  lemma NumeralMinus6()
    ensures IsNumeral("-6") && NumeralValue("-6") == -6.0
  {
    Numeral6();
    NegativeNumeral("6");
    assert "-6" == "-" + "6";
  }

  // Unfolding steps on short literal sequences

  lemma ArgsSingle(b: string)
    ensures ArgsText([b]) == Gap(b) + b
  {
    assert [b][1..] == [];
    assert ArgsText([b]) == Gap(b) + b + "";
  }

  lemma ArgsPair(a: string, b: string)
    ensures ArgsText([a, b]) == Gap(a) + a + Gap(b) + b
  {
    assert [a, b][1..] == [b];
    ArgsSingle(b);
  }

  lemma LeadPair(a: string, b: string)
    ensures LeadText([a, b]) == a + Gap(b) + b
  {
    assert [a, b][1..] == [b];
    ArgsSingle(b);
  }

  lemma CompactCons(c: Command, rest: seq<Command>, current: Option<char>)
    ensures Compact([c] + rest, current) == CommandText(c, current) + Compact(rest, Some(c.letter))
  {
    assert ([c] + rest)[1..] == rest;
  }

  lemma CompactSingle(c: Command, current: Option<char>)
    ensures Compact([c], current) == CommandText(c, current)
  {
    assert [c][1..] == [];
    assert Compact([c], current) == CommandText(c, current) + "";
  }

  lemma PairWellFormed(letter: char, a: string, b: string)
    requires ArgCount(letter) == Some(2) && IsNumeral(a) && IsNumeral(b)
    ensures WellFormed(Command(letter, [a, b]))
  {
  }

  lemma ExtremesCons(p: Point, rest: seq<Point>)
    requires |rest| > 0
    ensures MinY([p] + rest) == if p.y <= MinY(rest) then p.y else MinY(rest)
    ensures MaxY([p] + rest) == if p.y >= MaxY(rest) then p.y else MaxY(rest)
  {
    assert ([p] + rest)[1..] == rest;
  }

  lemma BucketsCons(p: Point, rest: seq<Point>, low: real, high: real)
    ensures MidXs([p] + rest, low, high)
            == (if IsMid(p.y, low, high) then [p.x] else []) + MidXs(rest, low, high)
    ensures ExtremeXs([p] + rest, low, high)
            == (if IsMid(p.y, low, high) then [] else [p.x]) + ExtremeXs(rest, low, high)
  {
    assert ([p] + rest)[1..] == rest;
  }

  lemma SumPair(a: real, b: real)
    ensures Sum([a, b]) == a + b
  {
    SumCons([a, b]);
    assert [a, b][1..] == [b];
    SumCons([b]);
    assert [b][1..] == [];
  }

  // The left arrow

  lemma LeftCommandTexts()
    ensures CommandText(LeftCommands[0], None) == "M15.41 16.09"
    ensures CommandText(LeftCommands[1], Some('M')) == "l-4.58-4.59"
    ensures CommandText(LeftCommands[2], Some('l')) == " 4.58-4.59"
    ensures CommandText(LeftCommands[3], Some('l')) == "L14 5.5"
    ensures CommandText(LeftCommands[4], Some('L')) == "l-6 6"
    ensures CommandText(LeftCommands[5], Some('l')) == " 6 6"
    ensures CommandText(LeftCommands[6], Some('l')) == "z"
  {
    LeadPair("15.41", "16.09");
    LeadPair("-4.58", "-4.59");
    ArgsPair("4.58", "-4.59");
    LeadPair("14", "5.5");
    LeadPair("-6", "6");
    ArgsPair("6", "6");
  }

  /** The left arrow's path data is the compact writing of its commands. */
  lemma LeftText()
    ensures Compact(LeftCommands, None) == LeftPath
  {
    var c := LeftCommands;
    var t6 := [c[6]];
    var t5 := [c[5]] + t6;
    var t4 := [c[4]] + t5;
    var t3 := [c[3]] + t4;
    var t2 := [c[2]] + t3;
    var t1 := [c[1]] + t2;
    var t0 := [c[0]] + t1;
    assert t0 == c;
    CompactSingle(c[6], Some('l'));
    CompactCons(c[5], t6, Some('l'));
    CompactCons(c[4], t5, Some('L'));
    CompactCons(c[3], t4, Some('l'));
    CompactCons(c[2], t3, Some('l'));
    CompactCons(c[1], t2, Some('M'));
    CompactCons(c[0], t1, None);
    LeftCommandTexts();
    LeftPathPieces();
  }

  lemma LeftWellFormed()
    ensures AllWellFormed(LeftCommands)
  {
    forall k | 0 <= k < |LeftCommands|
      ensures WellFormed(LeftCommands[k])
    {
      if k == 0 {
        LeftWellFormed0();
      } else if k == 1 {
        LeftWellFormed1();
      } else if k == 2 {
        LeftWellFormed2();
      } else if k == 3 {
        LeftWellFormed3();
      } else if k == 4 {
        LeftWellFormed4();
      } else if k == 5 {
        LeftWellFormed5();
      } else {
        assert WellFormed(LeftCommands[6]);
      }
    }
  }

  lemma LeftWellFormed0()
    ensures WellFormed(Command('M', ["15.41", "16.09"]))
  {
    Numeral15_41();
    Numeral16_09();
    PairWellFormed('M', "15.41", "16.09");
  }

  lemma LeftWellFormed1()
    ensures WellFormed(Command('l', ["-4.58", "-4.59"]))
  {
    NumeralMinus4_58();
    NumeralMinus4_59();
    PairWellFormed('l', "-4.58", "-4.59");
  }

  lemma LeftWellFormed2()
    ensures WellFormed(Command('l', ["4.58", "-4.59"]))
  {
    Numeral4_58();
    NumeralMinus4_59();
    PairWellFormed('l', "4.58", "-4.59");
  }

  lemma LeftWellFormed3()
    ensures WellFormed(Command('L', ["14", "5.5"]))
  {
    Numeral14();
    Numeral5_5();
    PairWellFormed('L', "14", "5.5");
  }

  lemma LeftWellFormed4()
    ensures WellFormed(Command('l', ["-6", "6"]))
  {
    NumeralMinus6();
    Numeral6();
    PairWellFormed('l', "-6", "6");
  }

  lemma LeftWellFormed5()
    ensures WellFormed(Command('l', ["6", "6"]))
  {
    Numeral6();
    PairWellFormed('l', "6", "6");
  }

  /** The tokenizer reads the left arrow's path data as its seven commands. */
  lemma LeftTokens()
    ensures Tokenize(LeftPath) == Ok(LeftCommands)
  {
    LeftWellFormed();
    LeftText();
    TokenizeCompact(LeftCommands);
  }

  lemma LeftAllEvaluated()
    ensures forall k :: 0 <= k < |LeftCommands| ==> IsEvaluated(LeftCommands[k].letter)
    ensures forall k :: 1 <= k < |LeftCommands| ==> !IsMoveto(LeftCommands[k].letter)
  {
  }

  lemma LeftRuns()
    ensures AllWellFormed(LeftCommands) && Evaluate(LeftCommands).Ok?
  {
    LeftWellFormed();
    LeftAllEvaluated();
  }

  /** The evaluator turns the left arrow's commands into the seven points of
      its outline, the last closing back on the first. */
  lemma LeftEvaluates()
    ensures AllWellFormed(LeftCommands) && Evaluate(LeftCommands) == Ok(LeftPoints)
  {
    LeftRuns();
    var pts := Evaluate(LeftCommands).value;
    LeftPoint0();
    LeftPoint1();
    LeftPoint2();
    LeftPoint3();
    LeftPoint4();
    LeftPoint5();
    LeftPoint6();
    assert |pts| == |LeftPoints|;
    assert pts == LeftPoints;
  }

  lemma LeftPoint0()
    ensures AllWellFormed(LeftCommands) && Evaluate(LeftCommands).Ok?
    ensures Evaluate(LeftCommands).value[0] == LeftPoints[0]
  {
    LeftRuns();
    PointAt(LeftCommands, 0);
    Numeral15_41();
    Numeral16_09();
  }

  lemma LeftPoint1()
    ensures AllWellFormed(LeftCommands) && Evaluate(LeftCommands).Ok?
    ensures Evaluate(LeftCommands).value[1] == LeftPoints[1]
  {
    LeftRuns();
    LeftPoint0();
    PointAt(LeftCommands, 1);
    NumeralMinus4_58();
    NumeralMinus4_59();
  }

  lemma LeftPoint2()
    ensures AllWellFormed(LeftCommands) && Evaluate(LeftCommands).Ok?
    ensures Evaluate(LeftCommands).value[2] == LeftPoints[2]
  {
    LeftRuns();
    LeftPoint1();
    PointAt(LeftCommands, 2);
    Numeral4_58();
    NumeralMinus4_59();
  }

  lemma LeftPoint3()
    ensures AllWellFormed(LeftCommands) && Evaluate(LeftCommands).Ok?
    ensures Evaluate(LeftCommands).value[3] == LeftPoints[3]
  {
    LeftRuns();
    PointAt(LeftCommands, 3);
    Numeral14();
    Numeral5_5();
  }

  lemma LeftPoint4()
    ensures AllWellFormed(LeftCommands) && Evaluate(LeftCommands).Ok?
    ensures Evaluate(LeftCommands).value[4] == LeftPoints[4]
  {
    LeftRuns();
    LeftPoint3();
    PointAt(LeftCommands, 4);
    NumeralMinus6();
    Numeral6();
  }

  lemma LeftPoint5()
    ensures AllWellFormed(LeftCommands) && Evaluate(LeftCommands).Ok?
    ensures Evaluate(LeftCommands).value[5] == LeftPoints[5]
  {
    LeftRuns();
    LeftPoint4();
    PointAt(LeftCommands, 5);
    Numeral6();
  }

  lemma LeftPoint6()
    ensures AllWellFormed(LeftCommands) && Evaluate(LeftCommands).Ok?
    ensures Evaluate(LeftCommands).value[6] == LeftPoints[6]
  {
    LeftRuns();
    LeftAllEvaluated();
    LeftPoint0();
    PointAt(LeftCommands, 6);
    var pts := Evaluate(LeftCommands).value;
    var j :| 0 <= j < 6 && IsMoveto(LeftCommands[j].letter) && NoMovetoIn(LeftCommands, j + 1, 6) && pts[6] == pts[j];
    assert j == 0;
  }

  // The right arrow

  lemma RightCommandTexts()
    ensures CommandText(RightCommands[0], None) == "M8.59 16.34"
    ensures CommandText(RightCommands[1], Some('M')) == "l4.58-4.59"
    ensures CommandText(RightCommands[2], Some('l')) == "-4.58-4.59"
    ensures CommandText(RightCommands[3], Some('l')) == "L10 5.75"
    ensures CommandText(RightCommands[4], Some('L')) == "l6 6"
    ensures CommandText(RightCommands[5], Some('l')) == "-6 6"
    ensures CommandText(RightCommands[6], Some('l')) == "z"
  {
    LeadPair("8.59", "16.34");
    LeadPair("4.58", "-4.59");
    LeadPair("-4.58", "-4.59");
    LeadPair("10", "5.75");
    LeadPair("6", "6");
    LeadPair("-6", "6");
  }

  /** The right arrow's path data is the compact writing of its commands. */
  lemma RightText()
    ensures Compact(RightCommands, None) == RightPath
  {
    var c := RightCommands;
    var t6 := [c[6]];
    var t5 := [c[5]] + t6;
    var t4 := [c[4]] + t5;
    var t3 := [c[3]] + t4;
    var t2 := [c[2]] + t3;
    var t1 := [c[1]] + t2;
    var t0 := [c[0]] + t1;
    assert t0 == c;
    CompactSingle(c[6], Some('l'));
    CompactCons(c[5], t6, Some('l'));
    CompactCons(c[4], t5, Some('L'));
    CompactCons(c[3], t4, Some('l'));
    CompactCons(c[2], t3, Some('l'));
    CompactCons(c[1], t2, Some('M'));
    CompactCons(c[0], t1, None);
    RightCommandTexts();
    RightPathPieces();
  }

  lemma RightWellFormed()
    ensures AllWellFormed(RightCommands)
  {
    forall k | 0 <= k < |RightCommands|
      ensures WellFormed(RightCommands[k])
    {
      if k == 0 {
        RightWellFormed0();
      } else if k == 1 {
        RightWellFormed1();
      } else if k == 2 {
        RightWellFormed2();
      } else if k == 3 {
        RightWellFormed3();
      } else if k == 4 {
        RightWellFormed4();
      } else if k == 5 {
        RightWellFormed5();
      } else {
        assert WellFormed(RightCommands[6]);
      }
    }
  }

  lemma RightWellFormed0()
    ensures WellFormed(Command('M', ["8.59", "16.34"]))
  {
    Numeral8_59();
    Numeral16_34();
    PairWellFormed('M', "8.59", "16.34");
  }

  lemma RightWellFormed1()
    ensures WellFormed(Command('l', ["4.58", "-4.59"]))
  {
    Numeral4_58();
    NumeralMinus4_59();
    PairWellFormed('l', "4.58", "-4.59");
  }

  lemma RightWellFormed2()
    ensures WellFormed(Command('l', ["-4.58", "-4.59"]))
  {
    NumeralMinus4_58();
    NumeralMinus4_59();
    PairWellFormed('l', "-4.58", "-4.59");
  }

  lemma RightWellFormed3()
    ensures WellFormed(Command('L', ["10", "5.75"]))
  {
    Numeral10();
    Numeral5_75();
    PairWellFormed('L', "10", "5.75");
  }

  lemma RightWellFormed4()
    ensures WellFormed(Command('l', ["6", "6"]))
  {
    Numeral6();
    PairWellFormed('l', "6", "6");
  }

  lemma RightWellFormed5()
    ensures WellFormed(Command('l', ["-6", "6"]))
  {
    NumeralMinus6();
    Numeral6();
    PairWellFormed('l', "-6", "6");
  }

  /** The tokenizer reads the right arrow's path data as its seven commands. */
  lemma RightTokens()
    ensures Tokenize(RightPath) == Ok(RightCommands)
  {
    RightWellFormed();
    RightText();
    TokenizeCompact(RightCommands);
  }

  lemma RightAllEvaluated()
    ensures forall k :: 0 <= k < |RightCommands| ==> IsEvaluated(RightCommands[k].letter)
    ensures forall k :: 1 <= k < |RightCommands| ==> !IsMoveto(RightCommands[k].letter)
  {
  }

  lemma RightRuns()
    ensures AllWellFormed(RightCommands) && Evaluate(RightCommands).Ok?
  {
    RightWellFormed();
    RightAllEvaluated();
  }

  /** The evaluator turns the right arrow's commands into the seven points of
      its outline, the last closing back on the first. */
  lemma RightEvaluates()
    ensures AllWellFormed(RightCommands) && Evaluate(RightCommands) == Ok(RightPoints)
  {
    RightRuns();
    var pts := Evaluate(RightCommands).value;
    RightPoint0();
    RightPoint1();
    RightPoint2();
    RightPoint3();
    RightPoint4();
    RightPoint5();
    RightPoint6();
    assert |pts| == |RightPoints|;
    assert pts == RightPoints;
  }

  lemma RightPoint0()
    ensures AllWellFormed(RightCommands) && Evaluate(RightCommands).Ok?
    ensures Evaluate(RightCommands).value[0] == RightPoints[0]
  {
    RightRuns();
    PointAt(RightCommands, 0);
    Numeral8_59();
    Numeral16_34();
  }

  lemma RightPoint1()
    ensures AllWellFormed(RightCommands) && Evaluate(RightCommands).Ok?
    ensures Evaluate(RightCommands).value[1] == RightPoints[1]
  {
    RightRuns();
    RightPoint0();
    PointAt(RightCommands, 1);
    Numeral4_58();
    NumeralMinus4_59();
  }

  lemma RightPoint2()
    ensures AllWellFormed(RightCommands) && Evaluate(RightCommands).Ok?
    ensures Evaluate(RightCommands).value[2] == RightPoints[2]
  {
    RightRuns();
    RightPoint1();
    PointAt(RightCommands, 2);
    NumeralMinus4_58();
    NumeralMinus4_59();
  }

  lemma RightPoint3()
    ensures AllWellFormed(RightCommands) && Evaluate(RightCommands).Ok?
    ensures Evaluate(RightCommands).value[3] == RightPoints[3]
  {
    RightRuns();
    PointAt(RightCommands, 3);
    Numeral10();
    Numeral5_75();
  }

  lemma RightPoint4()
    ensures AllWellFormed(RightCommands) && Evaluate(RightCommands).Ok?
    ensures Evaluate(RightCommands).value[4] == RightPoints[4]
  {
    RightRuns();
    RightPoint3();
    PointAt(RightCommands, 4);
    Numeral6();
  }

  lemma RightPoint5()
    ensures AllWellFormed(RightCommands) && Evaluate(RightCommands).Ok?
    ensures Evaluate(RightCommands).value[5] == RightPoints[5]
  {
    RightRuns();
    RightPoint4();
    PointAt(RightCommands, 5);
    NumeralMinus6();
    Numeral6();
  }

  lemma RightPoint6()
    ensures AllWellFormed(RightCommands) && Evaluate(RightCommands).Ok?
    ensures Evaluate(RightCommands).value[6] == RightPoints[6]
  {
    RightRuns();
    RightAllEvaluated();
    RightPoint0();
    PointAt(RightCommands, 6);
    var pts := Evaluate(RightCommands).value;
    var j :| 0 <= j < 6 && IsMoveto(RightCommands[j].letter) && NoMovetoIn(RightCommands, j + 1, 6) && pts[6] == pts[j];
    assert j == 0;
  }

  lemma LeftExtremes()
    ensures MinY(LeftPoints) == 5.5 && MaxY(LeftPoints) == 17.5
  {
    var p := LeftPoints;
    var t6 := [p[6]];
    var t5 := [p[5]] + t6;
    var t4 := [p[4]] + t5;
    var t3 := [p[3]] + t4;
    var t2 := [p[2]] + t3;
    var t1 := [p[1]] + t2;
    var t0 := [p[0]] + t1;
    assert t0 == p;
    ExtremesCons(p[5], t6);
    ExtremesCons(p[4], t5);
    ExtremesCons(p[3], t4);
    ExtremesCons(p[2], t3);
    ExtremesCons(p[1], t2);
    ExtremesCons(p[0], t1);
  }

  lemma LeftBand()
    ensures MidLow(LeftPoints) == 8.5 && MidHigh(LeftPoints) == 14.5
  {
    LeftExtremes();
  }

  lemma LeftBuckets()
    ensures MidBucket(LeftPoints) == [10.83, 8.0]
    ensures ExtremeBucket(LeftPoints) == [15.41, 15.41, 14.0, 14.0, 15.41]
  {
    LeftBand();
    LeftBandBuckets();
  }

  lemma LeftBandBuckets()
    ensures MidXs(LeftPoints, 8.5, 14.5) == [10.83, 8.0]
    ensures ExtremeXs(LeftPoints, 8.5, 14.5) == [15.41, 15.41, 14.0, 14.0, 15.41]
  {
    var p := LeftPoints;
    var t6 := [p[6]];
    var t5 := [p[5]] + t6;
    var t4 := [p[4]] + t5;
    var t3 := [p[3]] + t4;
    var t2 := [p[2]] + t3;
    var t1 := [p[1]] + t2;
    var t0 := [p[0]] + t1;
    assert t0 == p;
    BucketsCons(p[6], [], 8.5, 14.5);
    BucketsCons(p[5], t6, 8.5, 14.5);
    BucketsCons(p[4], t5, 8.5, 14.5);
    BucketsCons(p[3], t4, 8.5, 14.5);
    BucketsCons(p[2], t3, 8.5, 14.5);
    BucketsCons(p[1], t2, 8.5, 14.5);
    BucketsCons(p[0], t1, 8.5, 14.5);
  }

  /** The classifier calls the left arrow's outline a left caret: the points
      inside the band average further left than the others. */
  lemma LeftDirection()
    ensures Direction(LeftPoints) == -1
  {
    LeftBuckets();
    var mid := [10.83, 8.0];
    var ext := [15.41, 15.41, 14.0, 14.0, 15.41];
    SumPair(10.83, 8.0);
    SumCons(ext);
    assert ext[1..] == [15.41, 14.0, 14.0, 15.41];
    SumCons(ext[1..]);
    assert ext[1..][1..] == [14.0, 14.0, 15.41];
    SumCons(ext[1..][1..]);
    assert ext[1..][1..][1..] == [14.0, 15.41];
    SumPair(14.0, 15.41);
    CompareMeansByCross(mid, ext);
  }

  /** The right arrow's outline is the left one mirrored and moved: x becomes
      24 - x and y moves down by a quarter. */
  lemma RightMirrorsLeft()
    ensures RightPoints == Translate(MirrorX(LeftPoints), 24.0, 0.25)
  {
    var q := Translate(MirrorX(LeftPoints), 24.0, 0.25);
    assert |q| == |RightPoints|;
    forall k | 0 <= k < |q|
      ensures q[k] == RightPoints[k]
    {
    }
  }

  /** The classifier calls the right arrow's outline a right caret, which
      follows from the left verdict by the symmetries of the classifier. */
  lemma RightDirection()
    ensures Direction(RightPoints) == 1
  {
    RightMirrorsLeft();
    LeftDirection();
    MirrorReverses(LeftPoints);
    TranslateKeeps(MirrorX(LeftPoints), 24.0, 0.25);
  }

  /** `getPathAbsoluteCoordinates` on the left arrow's path data gives its seven points. */
  lemma LeftCoordinates()
    ensures AbsoluteCoordinates(LeftPath) == Ok(LeftPoints)
  {
    LeftTokens();
    LeftEvaluates();
  }

  /** `getPathAbsoluteCoordinates` on the right arrow's path data gives its seven points. */
  lemma RightCoordinates()
    ensures AbsoluteCoordinates(RightPath) == Ok(RightPoints)
  {
    RightTokens();
    RightEvaluates();
  }

  /** `getPathArrowDirection` on the left arrow's path data is -1. */
  lemma LeftVerdict()
    ensures PathArrowDirection(LeftPath) == Ok(-1)
  {
    LeftTokens();
    LeftEvaluates();
    LeftDirection();
  }

  /** `getPathArrowDirection` on the right arrow's path data is 1. */
  lemma RightVerdict()
    ensures PathArrowDirection(RightPath) == Ok(1)
  {
    RightTokens();
    RightEvaluates();
    RightDirection();
  }
}
