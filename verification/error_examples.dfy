/** Short path data on which the tokenizer `getPathCommands` throws, each
    obtained from the general error lemmas about text written after
    well-formed commands: the error of the failing command is the error of
    the whole call, whatever came before it. */
module ErrorExamples {
  import opened Wrappers
  import opened PathSyntax
  import opened PathCommands
  import opened PathLayout

  /** A one-digit numeral, matched whole. */
  lemma Digit(s: string)
    requires |s| == 1 && IsDigit(s[0])
    ensures IsNumeral(s)
  {
    assert IsUnsignedNumeral(s) by {
      assert AllDigits(s[0..1]);
    }
  }

  /** `M0 0`: a moveto with its letter and one space between its numerals. */
  lemma MoveOrigin()
    ensures AllWellFormed([Command('M', ["0", "0"])])
    ensures GoodLayouts([Command('M', ["0", "0"])], [Layout("", true, ["", " "])], None)
    ensures Fits([Command('M', ["0", "0"])], [Layout("", true, ["", " "])])
    ensures WrittenAll([Command('M', ["0", "0"])], [Layout("", true, ["", " "])]) == "M0 0"
  {
    var c := Command('M', ["0", "0"]);
    Digit("0");
    assert AllNumerals(c.args);
    assert WellFormed(c);
    assert Spaced(["0"], [" "]) == " 0";
    assert Spaced(c.args, ["", " "]) == "0 0";
    assert Written(c, Layout("", true, ["", " "])) == "M0 0";
  }

  /** A moveto that runs out of text after its first numeral. */
  lemma MissingAtEnd()
    ensures Tokenize("M 5") == Err(MissingArguments('M'))
  {
    var c, l := Command('M', ["5"]), Layout("", true, [" "]);
    Digit("5");
    assert AllNumerals(c.args);
    assert Written(c, l) == "M 5";
    CutShort([], [], None, c, l, "");
    assert WrittenAll([], []) + Written(c, l) + "" == "M 5";
  }

  /** A comma is not a separator to the script: the second numeral of the
      moveto is missing where the comma stands. */
  lemma CommaSeparated()
    ensures Tokenize("M0,0") == Err(BadArgument('M'))
  {
    var c, l := Command('M', ["0"]), Layout("", true, [""]);
    Digit("0");
    assert AllNumerals(c.args);
    assert Written(c, l) == "M0";
    assert TrimStart(",0") == ",0";
    assert !AllSpace(",0");
    CutShort([], [], None, c, l, ",0");
    assert WrittenAll([], []) + Written(c, l) + ",0" == "M0,0";
  }

  /** An unknown letter after a good command. */
  lemma UnknownLetter()
    ensures Tokenize("M0 0 x") == Err(UnsupportedCommand('x'))
  {
    var cmds, ls := [Command('M', ["0", "0"])], [Layout("", true, ["", " "])];
    MoveOrigin();
    UnsupportedAfter(cmds, ls, None, " ", 'x', "");
    assert WrittenAll(cmds, ls) + " " + ['x'] + "" == "M0 0 x";
  }

  /** A lineto cut short after a good command. */
  lemma MissingAfter()
    ensures Tokenize("M0 0L1") == Err(MissingArguments('L'))
  {
    var cmds, ls := [Command('M', ["0", "0"])], [Layout("", true, ["", " "])];
    var c, l := Command('L', ["1"]), Layout("", true, [""]);
    MoveOrigin();
    Digit("1");
    assert AllNumerals(c.args);
    assert Written(c, l) == "L1";
    CutShort(cmds, ls, None, c, l, "");
    assert WrittenAll(cmds, ls) + Written(c, l) + "" == "M0 0L1";
  }
}
