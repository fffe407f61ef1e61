/** The tokenizer `getPathCommands` read in reverse: how a list of commands
    can be written as path data (whitespace anywhere the script trims it, a
    letter left out where the script reuses the current one) so that the
    tokenizer gives the list back, and what the tokenizer reports when the
    text after well-formed commands goes wrong. */
module PathLayout {
  import opened Wrappers
  import opened PathSyntax
  import opened PathCommands

  /** No numeral can continue into `s`: it is empty or starts with
      something other than a digit or a point. */
  predicate Separates(s: string) {
    s == [] || (!IsDigit(s[0]) && s[0] != '.')
  }

  /** Whitespace `sep` keeps numeral `a` apart from a numeral written just
      before it: it is not empty, or `a`'s own minus sign ends that numeral. */
  predicate Apart(sep: string, a: string) {
    sep != [] || (a != [] && a[0] == '-')
  }

  /** Whitespace only, character by character. */
  predicate Blank(s: string)
    decreases |s|
  {
    s == [] || (IsSpace(s[0]) && Blank(s[1..]))
  }

  /** `Blank` is the script's whitespace test applied to every character. */
  lemma {:induction false} BlankIff(s: string)
    ensures Blank(s) <==> AllSpace(s)
    decreases |s|
  {
    if s != [] {
      BlankIff(s[1..]);
      assert forall i :: 0 < i < |s| ==> s[i] == s[1..][i - 1];
    }
  }

  /** Leading whitespace is what the start-trim removes. */
  lemma {:induction false} BlankTrim(g: string, t: string)
    requires Blank(g)
    ensures TrimStart(g + t) == TrimStart(t)
  {
    if g != [] {
      assert (g + t)[1..] == g[1..] + t;
      BlankTrim(g[1..], t);
    } else {
      assert g + t == t;
    }
  }

  /** Numerals, each preceded by its own separator. */
  function Spaced(args: seq<string>, seps: seq<string>): string
    requires |seps| == |args|
  {
    if args == [] then "" else seps[0] + args[0] + Spaced(args[1..], seps[1..])
  }

  /** Separators between numerals: whitespace, each keeping its numeral
      apart from the one before. */
  predicate ApartSeps(args: seq<string>, seps: seq<string>)
    decreases |args|
  {
    && |seps| == |args|
    && (args != [] ==> Blank(seps[0]) && Apart(seps[0], args[0]) && ApartSeps(args[1..], seps[1..]))
  }

  /** Separators the tokenizer reads through: whitespace only, and apart
      wherever a numeral follows another. The first one follows whatever
      precedes the arguments. */
  predicate GoodSeps(args: seq<string>, seps: seq<string>) {
    && |seps| == |args|
    && (args != [] ==> Blank(seps[0]) && ApartSeps(args[1..], seps[1..]))
  }

  /** Separated numerals followed by text where no further numeral can be
      read: a read that asks for more than the numerals written fails, with
      "missing arguments" when only whitespace is left and "bad argument"
      otherwise. */
  lemma {:induction false} ReadArgsCutShort(args: seq<string>, seps: seq<string>, rest: string, d: string,
                                            letter: char, k: nat)
    requires AllNumerals(args) && GoodSeps(args, seps) && Separates(rest) && d == Spaced(args, seps) + rest
    requires k > 0 && (AllSpace(rest) || NumberPrefix(TrimStart(rest)) == 0)
    ensures ReadArgs(d, letter, |args| + k) == Err(Shortfall(rest, letter))
  {
    if args == [] {
      assert d == rest && |args| + k == k;
      NothingToRead(rest, letter, k);
    } else {
      var a, tail, stail := args[0], args[1..], seps[1..];
      var more := Spaced(tail, stail) + rest;
      NumeralsSplit(args);
      GoodSepsTail(args, seps);
      SpacedCons(args, seps, rest);
      SpacedSeparates(tail, stail, rest);
      var e, m := Shortfall(rest, letter), |tail| + k;
      ReadArgsCutShort(tail, stail, rest, more, letter, k);
      assert ReadArgs(more, letter, m) == Err(e);
      assert |args| + k == m + 1;
      ReadOneArgFails(d, seps[0], a, more, letter, m + 1, m, e);
    }
  }

  /** A read that asks for arguments where no numeral can be read fails. */
  lemma NothingToRead(rest: string, letter: char, k: nat)
    requires k > 0 && (AllSpace(rest) || NumberPrefix(TrimStart(rest)) == 0)
    ensures ReadArgs(rest, letter, k) == Err(Shortfall(rest, letter))
  {
    if AllSpace(rest) {
      assert ReadArgs(rest, letter, k) == Err(MissingArguments(letter));
    } else {
      assert ReadArgs(rest, letter, k) == Err(BadArgument(letter));
    }
  }

  /** The error of a read that finds no numeral in `rest`. */
  function Shortfall(rest: string, letter: char): PathError {
    if AllSpace(rest) then MissingArguments(letter) else BadArgument(letter)
  }

  /** Separated numerals, and exactly as many as are asked for, are read
      back unchanged, with the text after them left over. */
  lemma {:induction false} ReadArgsExact(args: seq<string>, seps: seq<string>, rest: string, d: string, letter: char)
    requires AllNumerals(args) && GoodSeps(args, seps) && Separates(rest) && d == Spaced(args, seps) + rest
    ensures ReadArgs(d, letter, |args|) == Ok((args, rest))
  {
    if args == [] {
      assert d == rest;
    } else {
      var a, tail, stail := args[0], args[1..], seps[1..];
      var more := Spaced(tail, stail) + rest;
      NumeralsSplit(args);
      GoodSepsTail(args, seps);
      SpacedCons(args, seps, rest);
      SpacedSeparates(tail, stail, rest);
      ReadArgsExact(tail, stail, rest, more, letter);
      ReadOneArg(d, seps[0], a, more, letter, |args|, |tail|, args, tail, rest);
    }
  }

  /** One step of `ReadArgs` over whitespace, a numeral and text that
      cannot continue the numeral, in front of a further read that succeeds. */
  lemma ReadOneArg(d: string, g: string, a: string, more: string, letter: char, n: nat, m: nat,
                   xs: seq<string>, ys: seq<string>, z: string)
    requires d == g + a + more && n == m + 1
    requires Blank(g) && IsNumeral(a) && Separates(more)
    requires ReadArgs(more, letter, m) == Ok((ys, z)) && xs == [a] + ys
    ensures ReadArgs(d, letter, n) == Ok((xs, z))
  {
    ArgumentAhead(g, a, more);
    ReadArgsStep(d, a + more, |a|, letter, m);
  }

  /** The same step in front of a further read that fails. */
  lemma ReadOneArgFails(d: string, g: string, a: string, more: string, letter: char, n: nat, m: nat, e: PathError)
    requires d == g + a + more && n == m + 1
    requires Blank(g) && IsNumeral(a) && Separates(more)
    requires ReadArgs(more, letter, m) == Err(e)
    ensures ReadArgs(d, letter, n) == Err(e)
  {
    ArgumentAhead(g, a, more);
    ReadArgsStep(d, a + more, |a|, letter, m);
  }

  /** `Spaced` unfolded once, in front of further text. */
  lemma SpacedCons(args: seq<string>, seps: seq<string>, rest: string)
    requires args != [] && |seps| == |args|
    ensures Spaced(args, seps) + rest == seps[0] + args[0] + (Spaced(args[1..], seps[1..]) + rest)
  {
  }

  lemma NumeralsSplit(args: seq<string>)
    requires args != [] && AllNumerals(args)
    ensures IsNumeral(args[0]) && AllNumerals(args[1..])
    ensures [args[0]] + args[1..] == args && |args[1..]| + 1 == |args|
  {
    assert forall i :: 0 <= i < |args| - 1 ==> args[1..][i] == args[i + 1];
  }

  lemma GoodSepsTail(args: seq<string>, seps: seq<string>)
    requires args != [] && GoodSeps(args, seps)
    ensures Blank(seps[0])
    ensures GoodSeps(args[1..], seps[1..])
    ensures args[1..] != [] ==> Blank(seps[1..][0]) && Apart(seps[1..][0], args[1..][0])
  {
  }

  /** Separated numerals, whose first is apart from what comes before,
      cannot continue a numeral either. */
  lemma SpacedSeparates(args: seq<string>, seps: seq<string>, rest: string)
    requires |seps| == |args| && Separates(rest)
    requires args != [] ==> Blank(seps[0]) && Apart(seps[0], args[0])
    ensures Separates(Spaced(args, seps) + rest)
  {
    if args != [] {
      SpacedCons(args, seps, rest);
      HeadSeparates(seps[0], args[0], Spaced(args[1..], seps[1..]) + rest);
    }
  }

  /** Whitespace and a numeral apart from what precedes them start with a
      space or a minus sign. */
  lemma HeadSeparates(g: string, a: string, more: string)
    requires Blank(g) && Apart(g, a)
    ensures Separates(g + a + more)
  {
    var d := g + a + more;
    if g != [] {
      assert d[0] == g[0] && IsSpace(g[0]);
    } else {
      assert d[0] == a[0];
    }
  }

  /** After whitespace, a numeral that the text after it cannot continue is
      the whole number prefix of what is left. */
  lemma ArgumentAhead(g: string, a: string, more: string)
    requires Blank(g)
    requires IsNumeral(a) && Separates(more)
    ensures TrimStart(g + a + more) == a + more
    ensures 0 < |a| == NumberPrefix(a + more)
    ensures (a + more)[..|a|] == a && (a + more)[|a|..] == more
  {
    var t := a + more;
    assert t[..|a|] == a && t[|a|..] == more;
    assert NumberPrefix(t) == |a| by {
      NumberPrefixOfNumeral(a, more);
    }
    assert |a| > 0 && TrimStart(g + a + more) == t by {
      NumeralHead(a);
      assert t[0] == a[0];
      assert g + a + more == g + t;
      BlankTrim(g, t);
      TrimStartNonSpace(t);
    }
  }

  /** How one command is written: the whitespace in front of it, whether its
      letter is written or left to the tokenizer's letter reuse, and the
      whitespace in front of each argument. */
  datatype Layout = Layout(lead: string, lettered: bool, seps: seq<string>)

  /** Command `c` written out in layout `l`. */
  function Written(c: Command, l: Layout): string
    requires |l.seps| == |c.args|
  {
    l.lead + (if l.lettered then [c.letter] else []) + Spaced(c.args, l.seps)
  }

  /** A layout the tokenizer reads back as `c` while `current` is the current
      letter: whitespace only, numerals kept apart, and the letter left out
      only where the script reuses the current one, which takes an argument
      to start the command. */
  predicate GoodLayout(c: Command, l: Layout, current: Option<char>) {
    && Blank(l.lead)
    && GoodSeps(c.args, l.seps)
    && (!l.lettered ==> current == Some(c.letter) && c.args != [] && Apart(l.lead + l.seps[0], c.args[0]))
  }

  /** `Iteration` over a command whose arguments are read. */
  lemma IterationOk(d: string, current: Option<char>, letter: char, rest: string, n: nat,
                    args: seq<string>, after: string)
    requires d != [] && !IsSpace(d[0]) && ArgCount(letter) == Some(n)
    requires IsLetter(d[0]) ==> letter == d[0] && rest == d[1..]
    requires !IsLetter(d[0]) ==> current == Some(letter) && rest == d
    requires ReadArgs(rest, letter, n) == Ok((args, after))
    ensures Iteration(d, current) == Ok((Command(letter, args), after))
  {
    IterationBody(d, current, letter, rest, n);
  }

  /** `Iteration` over a command whose arguments fail to read. */
  lemma IterationErr(d: string, current: Option<char>, letter: char, rest: string, n: nat, e: PathError)
    requires d != [] && !IsSpace(d[0]) && ArgCount(letter) == Some(n)
    requires IsLetter(d[0]) ==> letter == d[0] && rest == d[1..]
    requires !IsLetter(d[0]) ==> current == Some(letter) && rest == d
    requires ReadArgs(rest, letter, n) == Err(e)
    ensures Iteration(d, current) == Err(e)
  {
    IterationBody(d, current, letter, rest, n);
  }

  /** A lettered command: the whitespace in front goes, the letter stays. */
  lemma LetteredText(c: Command, l: Layout, current: Option<char>, tail: string)
    requires ArgCount(c.letter).Some? && GoodLayout(c, l, current) && l.lettered
    ensures TrimStart(Written(c, l) + tail) == [c.letter] + (Spaced(c.args, l.seps) + tail)
    ensures IsLetter(c.letter) && !IsSpace(c.letter)
  {
    var d := [c.letter] + (Spaced(c.args, l.seps) + tail);
    assert Written(c, l) + tail == l.lead + d;
    LetterOfTable(c.letter);
    BlankTrim(l.lead, d);
    TrimStartNonSpace(d);
  }

  /** A command without its letter: all whitespace up to its first numeral
      goes, and the numeral is what is left. */
  lemma ResumedText(c: Command, l: Layout, tail: string)
    requires AllNumerals(c.args) && GoodLayout(c, l, Some(c.letter)) && !l.lettered
    ensures GoodSeps(c.args, [""] + l.seps[1..])
    ensures TrimStart(Written(c, l) + tail) == Spaced(c.args, [""] + l.seps[1..]) + tail
    ensures |tail| < |TrimStart(Written(c, l) + tail)|
    ensures !IsSpace(TrimStart(Written(c, l) + tail)[0]) && !IsLetter(TrimStart(Written(c, l) + tail)[0])
  {
    var seps := [""] + l.seps[1..];
    var t := Spaced(c.args, seps) + tail;
    WrittenResumed(c, l);
    Regroup(l.lead, l.seps[0], Spaced(c.args, seps), tail);
    GoodSepsTail(c.args, l.seps);
    BlankTrim(l.seps[0], t);
    BlankTrim(l.lead, l.seps[0] + t);
    NumeralsAhead(c.args, seps, tail);
  }

  /** A command without its letter is its lead, its first separator and
      the numerals after them. */
  lemma WrittenResumed(c: Command, l: Layout)
    requires !l.lettered && c.args != [] && |l.seps| == |c.args|
    ensures Written(c, l) == l.lead + (l.seps[0] + Spaced(c.args, [""] + l.seps[1..]))
  {
    SpacedFirst(c.args, l.seps);
    assert l.lead + [] == l.lead;
  }

  lemma Regroup(a: string, b: string, c: string, d: string)
    ensures a + (b + c) + d == a + (b + (c + d))
  {
  }

  /** Separated numerals whose first separator is empty start with that
      numeral, which is neither whitespace nor a letter. */
  lemma NumeralsAhead(args: seq<string>, seps: seq<string>, tail: string)
    requires args != [] && AllNumerals(args) && |seps| == |args| && seps[0] == ""
    ensures Spaced(args, seps) + tail != [] && |tail| < |Spaced(args, seps) + tail|
    ensures !IsSpace((Spaced(args, seps) + tail)[0]) && !IsLetter((Spaced(args, seps) + tail)[0])
    ensures TrimStart(Spaced(args, seps) + tail) == Spaced(args, seps) + tail
  {
    var t := Spaced(args, seps) + tail;
    NumeralsSplit(args);
    NumeralHead(args[0]);
    SpacedCons(args, seps, tail);
    assert t[0] == args[0][0];
    TrimStartNonSpace(t);
  }

  /** The first separator can be taken out in front. */
  lemma SpacedFirst(args: seq<string>, seps: seq<string>)
    requires args != [] && |seps| == |args|
    ensures Spaced(args, seps) == seps[0] + Spaced(args, [""] + seps[1..])
  {
    var s2 := [""] + seps[1..];
    var x := Spaced(args[1..], seps[1..]);
    assert s2[0] == "" && s2[1..] == seps[1..];
    assert Spaced(args, s2) == "" + args[0] + x;
    assert Spaced(args, seps) == seps[0] + args[0] + x;
    EmptyFirst(seps[0], args[0], x);
  }

  lemma EmptyFirst(g: string, a: string, x: string)
    ensures g + a + x == g + ("" + a + x)
  {
  }

  lemma Assoc(a: string, b: string, c: string)
    ensures a + b + c == a + (b + c)
  {
  }

  /** One pass of the loop reads back one whole command written in a good
      layout, and consumes it. */
  lemma WrittenStep(c: Command, l: Layout, current: Option<char>, tail: string)
    requires WellFormed(c) && GoodLayout(c, l, current) && Separates(tail)
    ensures TrimStart(Written(c, l) + tail) != []
    ensures |tail| < |TrimStart(Written(c, l) + tail)|
    ensures Iteration(TrimStart(Written(c, l) + tail), current) == Ok((c, tail))
  {
    var t := TrimStart(Written(c, l) + tail);
    if l.lettered {
      var body := Spaced(c.args, l.seps) + tail;
      LetteredText(c, l, current, tail);
      ReadArgsExact(c.args, l.seps, tail, body, c.letter);
      IterationOk(t, current, c.letter, body, |c.args|, c.args, tail);
      assert Iteration(t, current) == Ok((c, tail));
    } else {
      ResumedText(c, l, tail);
      ReadArgsExact(c.args, [""] + l.seps[1..], tail, t, c.letter);
      IterationOk(t, current, c.letter, t, |c.args|, c.args, tail);
      assert Iteration(t, current) == Ok((c, tail));
    }
  }

  /** One pass of the loop over a command written in a good layout whose
      letter asks for `k` arguments more than are written fails, with the
      error of the text after them. */
  lemma WrittenShort(c: Command, l: Layout, current: Option<char>, tail: string, k: nat)
    requires AllNumerals(c.args) && ArgCount(c.letter) == Some(|c.args| + k) && k > 0
    requires GoodLayout(c, l, current) && Separates(tail)
    requires AllSpace(tail) || NumberPrefix(TrimStart(tail)) == 0
    ensures TrimStart(Written(c, l) + tail) != []
    ensures Iteration(TrimStart(Written(c, l) + tail), current) == Err(Shortfall(tail, c.letter))
  {
    var t := TrimStart(Written(c, l) + tail);
    var e := Shortfall(tail, c.letter);
    if l.lettered {
      var body := Spaced(c.args, l.seps) + tail;
      LetteredText(c, l, current, tail);
      ReadArgsCutShort(c.args, l.seps, tail, body, c.letter, k);
      IterationErr(t, current, c.letter, body, |c.args| + k, e);
      assert Iteration(t, current) == Err(e);
    } else {
      ResumedText(c, l, tail);
      ReadArgsCutShort(c.args, [""] + l.seps[1..], tail, t, c.letter, k);
      IterationErr(t, current, c.letter, t, |c.args| + k, e);
      assert Iteration(t, current) == Err(e);
    }
  }

  /** A command in a good layout cannot continue a numeral written before it. */
  lemma WrittenSeparates(c: Command, l: Layout, current: Option<char>, tail: string)
    requires ArgCount(c.letter).Some? && GoodLayout(c, l, current) && Separates(tail)
    ensures Separates(Written(c, l) + tail)
  {
    var d := Written(c, l) + tail;
    if l.lead != [] {
      assert d[0] == l.lead[0] && IsSpace(l.lead[0]);
    } else if l.lettered {
      assert d[0] == c.letter;
      LetterOfTable(c.letter);
    } else {
      SpacedCons(c.args, l.seps, tail);
      assert d == l.seps[0] + c.args[0] + (Spaced(c.args[1..], l.seps[1..]) + tail);
      assert l.lead + l.seps[0] == l.seps[0];
      HeadSeparates(l.seps[0], c.args[0], Spaced(c.args[1..], l.seps[1..]) + tail);
    }
  }

  /** Each layout fits its command's argument count. */
  predicate Fits(cmds: seq<Command>, ls: seq<Layout>)
    decreases |cmds|
  {
    && |ls| == |cmds|
    && (cmds != [] ==> |ls[0].seps| == |cmds[0].args| && Fits(cmds[1..], ls[1..]))
  }

  /** A command list written out, command `i` in layout `ls[i]`. */
  function WrittenAll(cmds: seq<Command>, ls: seq<Layout>): string
    requires Fits(cmds, ls)
    decreases |cmds|
  {
    if cmds == [] then "" else Written(cmds[0], ls[0]) + WrittenAll(cmds[1..], ls[1..])
  }

  /** Every layout is good, each against the letter the command before it
      leaves current. */
  predicate GoodLayouts(cmds: seq<Command>, ls: seq<Layout>, current: Option<char>)
    decreases |cmds|
  {
    && |ls| == |cmds|
    && (cmds != [] ==> GoodLayout(cmds[0], ls[0], current) && GoodLayouts(cmds[1..], ls[1..], Some(cmds[0].letter)))
  }

  /** The current letter once `cmds` have been read. */
  function LastLetter(cmds: seq<Command>, current: Option<char>): Option<char> {
    if cmds == [] then current else Some(cmds[|cmds| - 1].letter)
  }

  /** `cmds` put in front of what a further tokenization returns. */
  function Then(cmds: seq<Command>, r: Result<seq<Command>, PathError>): Result<seq<Command>, PathError> {
    if r.Err? then Err(r.error) else Ok(cmds + r.value)
  }

  lemma {:induction false} LayoutsFit(cmds: seq<Command>, ls: seq<Layout>, current: Option<char>)
    requires GoodLayouts(cmds, ls, current)
    ensures Fits(cmds, ls)
    decreases |cmds|
  {
    if cmds != [] {
      LayoutsFit(cmds[1..], ls[1..], Some(cmds[0].letter));
    }
  }

  /** `WrittenAll` unfolded once, in front of further text. */
  lemma WrittenAllCons(cmds: seq<Command>, ls: seq<Layout>, tail: string)
    requires cmds != [] && Fits(cmds, ls)
    ensures WrittenAll(cmds, ls) + tail == Written(cmds[0], ls[0]) + (WrittenAll(cmds[1..], ls[1..]) + tail)
  {
  }

  lemma {:induction false} WrittenAllSeparates(cmds: seq<Command>, ls: seq<Layout>, current: Option<char>, tail: string)
    requires AllWellFormed(cmds) && GoodLayouts(cmds, ls, current) && Fits(cmds, ls) && Separates(tail)
    ensures Separates(WrittenAll(cmds, ls) + tail)
    decreases |cmds|
  {
    if cmds == [] {
      assert WrittenAll(cmds, ls) + tail == tail;
    } else {
      var rest := WrittenAll(cmds[1..], ls[1..]) + tail;
      AllWellFormedSplit(cmds);
      WrittenAllSeparates(cmds[1..], ls[1..], Some(cmds[0].letter), tail);
      WrittenSeparates(cmds[0], ls[0], current, rest);
      WrittenAllCons(cmds, ls, tail);
    }
  }

  /** One command read in front of a further tokenization. */
  lemma ThenStep(d: string, current: Option<char>, c: Command, rest: string, cs: seq<Command>, r: Result<seq<Command>, PathError>)
    requires TrimStart(d) != []
    requires Iteration(TrimStart(d), current) == Ok((c, rest))
    requires |rest| < |TrimStart(d)|
    requires TokenizeFrom(rest, Some(c.letter)) == Then(cs, r)
    ensures TokenizeFrom(d, current) == Then([c] + cs, r)
  {
    if r.Ok? {
      var v := r.value;
      assert TokenizeFrom(rest, Some(c.letter)) == Ok(cs + v);
      TokenizeFromStep(d, current, c, rest, cs + v);
      assert [c] + (cs + v) == ([c] + cs) + v;
    } else {
      TokenizeFromStepFails(d, current, c, rest, r.error);
    }
  }

  /** Well-formed commands written in good layouts are read back one by
      one, whatever text follows them, as long as it cannot continue their
      last numeral: the tokenizer returns them followed by what it makes of
      that text, or that text's error. */
  lemma {:induction false} TokenizeWritten(cmds: seq<Command>, ls: seq<Layout>, current: Option<char>, tail: string)
    requires AllWellFormed(cmds) && GoodLayouts(cmds, ls, current) && Separates(tail)
    ensures Fits(cmds, ls)
    ensures TokenizeFrom(WrittenAll(cmds, ls) + tail, current)
            == Then(cmds, TokenizeFrom(tail, LastLetter(cmds, current)))
    decreases |cmds|
  {
    LayoutsFit(cmds, ls, current);
    var r := TokenizeFrom(tail, LastLetter(cmds, current));
    if cmds == [] {
      assert WrittenAll(cmds, ls) + tail == tail;
      if r.Ok? {
        assert cmds + r.value == r.value;
      }
    } else {
      var c, l := cmds[0], ls[0];
      var rest := WrittenAll(cmds[1..], ls[1..]) + tail;
      AllWellFormedSplit(cmds);
      TokenizeWritten(cmds[1..], ls[1..], Some(c.letter), tail);
      WrittenAllSeparates(cmds[1..], ls[1..], Some(c.letter), tail);
      WrittenAllCons(cmds, ls, tail);
      WrittenStep(c, l, current, rest);
      assert LastLetter(cmds[1..], Some(c.letter)) == LastLetter(cmds, current);
      ThenStep(WrittenAll(cmds, ls) + tail, current, c, rest, cmds[1..], r);
    }
  }

  /** Round trip: well-formed commands written in good layouts, with any
      whitespace after them, tokenize back to exactly those commands. */
  lemma WrittenRoundTrip(cmds: seq<Command>, ls: seq<Layout>, current: Option<char>, ws: string)
    requires AllWellFormed(cmds) && GoodLayouts(cmds, ls, current) && AllSpace(ws)
    ensures Fits(cmds, ls)
    ensures TokenizeFrom(WrittenAll(cmds, ls) + ws, current) == Ok(cmds)
  {
    if ws != [] {
      assert IsSpace(ws[0]);
    }
    TokenizeWritten(cmds, ls, current, ws);
    assert cmds + [] == cmds;
  }

  /** The round trip from the start of the data, where no letter is current. */
  lemma TokenizeWrittenAll(cmds: seq<Command>, ls: seq<Layout>, ws: string)
    requires AllWellFormed(cmds) && GoodLayouts(cmds, ls, None) && AllSpace(ws)
    ensures Fits(cmds, ls)
    ensures Tokenize(WrittenAll(cmds, ls) + ws) == Ok(cmds)
  {
    WrittenRoundTrip(cmds, ls, None, ws);
  }

  /** Text after well-formed commands that fails makes the whole
      tokenization fail with its error. */
  lemma FailsAfter(cmds: seq<Command>, ls: seq<Layout>, current: Option<char>, tail: string, e: PathError)
    requires AllWellFormed(cmds) && GoodLayouts(cmds, ls, current) && Separates(tail)
    requires TokenizeFrom(tail, LastLetter(cmds, current)) == Err(e)
    ensures Fits(cmds, ls)
    ensures TokenizeFrom(WrittenAll(cmds, ls) + tail, current) == Err(e)
  {
    TokenizeWritten(cmds, ls, current, tail);
  }

  /** A command cut short fails on its own: with "Expected additional
      arguments" when only whitespace follows, with "Expected argument" when
      the next argument position holds no numeral. */
  lemma PartialFails(c: Command, l: Layout, current: Option<char>, rest: string)
    requires ArgCount(c.letter).Some? && |c.args| < ArgCount(c.letter).value && AllNumerals(c.args)
    requires GoodLayout(c, l, current) && Separates(rest)
    requires AllSpace(rest) || NumberPrefix(TrimStart(rest)) == 0
    ensures Separates(Written(c, l) + rest)
    ensures TokenizeFrom(Written(c, l) + rest, current)
            == Err(Shortfall(rest, c.letter))
  {
    var k := ArgCount(c.letter).value - |c.args|;
    WrittenSeparates(c, l, current, rest);
    WrittenShort(c, l, current, rest, k);
    CommandFails(Written(c, l) + rest, current);
  }

  /** A command cut short after well-formed ones fails the whole
      tokenization, with the error it fails with on its own. */
  lemma CutShort(cmds: seq<Command>, ls: seq<Layout>, current: Option<char>, c: Command, l: Layout, rest: string)
    requires AllWellFormed(cmds) && GoodLayouts(cmds, ls, current)
    requires ArgCount(c.letter).Some? && |c.args| < ArgCount(c.letter).value && AllNumerals(c.args)
    requires GoodLayout(c, l, LastLetter(cmds, current)) && Separates(rest)
    requires AllSpace(rest) || NumberPrefix(TrimStart(rest)) == 0
    ensures Fits(cmds, ls)
    ensures TokenizeFrom(WrittenAll(cmds, ls) + Written(c, l) + rest, current)
            == Err(Shortfall(rest, c.letter))
  {
    var tail := Written(c, l) + rest;
    PartialFails(c, l, LastLetter(cmds, current), rest);
    FailsAfter(cmds, ls, current, tail, Shortfall(rest, c.letter));
    Assoc(WrittenAll(cmds, ls), Written(c, l), rest);
  }

  /** A letter outside the table fails on its own with "Unsupported command". */
  lemma UnsupportedFails(ws: string, x: char, rest: string, current: Option<char>)
    requires AllSpace(ws) && IsLetter(x) && ArgCount(x).None?
    ensures Separates(ws + [x] + rest)
    ensures TokenizeFrom(ws + [x] + rest, current) == Err(UnsupportedCommand(x))
  {
    var t := [x] + rest;
    var d := ws + [x] + rest;
    assert d == ws + t;
    if ws != [] {
      assert d[0] == ws[0] && IsSpace(ws[0]);
    }
    TrimSpacePrefix(ws, t);
    TrimStartNonSpace(t);
    CommandFails(d, current);
  }

  /** A letter outside the table after well-formed commands fails the
      whole tokenization with "Unsupported command". */
  lemma UnsupportedAfter(cmds: seq<Command>, ls: seq<Layout>, current: Option<char>, ws: string, x: char, rest: string)
    requires AllWellFormed(cmds) && GoodLayouts(cmds, ls, current)
    requires AllSpace(ws) && IsLetter(x) && ArgCount(x).None?
    ensures Fits(cmds, ls)
    ensures TokenizeFrom(WrittenAll(cmds, ls) + ws + [x] + rest, current) == Err(UnsupportedCommand(x))
  {
    var tail := ws + [x] + rest;
    UnsupportedFails(ws, x, rest, LastLetter(cmds, current));
    FailsAfter(cmds, ls, current, tail, UnsupportedCommand(x));
    Assoc(WrittenAll(cmds, ls) + ws, [x], rest);
    Assoc(WrittenAll(cmds, ls), ws, [x] + rest);
    Assoc(ws, [x], rest);
  }

  /** The separator the compact writer puts before a numeral: nothing when
      its own `-` sign ends the previous numeral, one space otherwise. */
  function Gap(a: string): string {
    if a != [] && a[0] == '-' then "" else " "
  }

  /** Numerals, each preceded by its gap. */
  function ArgsText(args: seq<string>): string {
    if args == [] then "" else Gap(args[0]) + args[0] + ArgsText(args[1..])
  }

  /** Numerals right after a command letter: the first one needs no gap. */
  function LeadText(args: seq<string>): string {
    if args == [] then "" else args[0] + ArgsText(args[1..])
  }

  /** One command as compact path text, the form icon sets ship: the letter
      is left out when it repeats the current one and the command has
      arguments, so the tokenizer's letter reuse brings it back. */
  function CommandText(c: Command, current: Option<char>): string {
    if current == Some(c.letter) && c.args != [] then Gap(c.args[0]) + LeadText(c.args)
    else [c.letter] + LeadText(c.args)
  }

  /** A command list as compact path text, starting with `current` as the
      current letter. */
  function Compact(cmds: seq<Command>, current: Option<char>): string {
    if cmds == [] then "" else CommandText(cmds[0], current) + Compact(cmds[1..], Some(cmds[0].letter))
  }

  /** The gaps of the compact writer, one per numeral. */
  function Gaps(args: seq<string>): (r: seq<string>)
    ensures |r| == |args|
  {
    if args == [] then [] else [Gap(args[0])] + Gaps(args[1..])
  }

  /** The compact writer's layout of one command. */
  function CompactLayout(c: Command, current: Option<char>): Layout {
    if current == Some(c.letter) && c.args != [] then Layout("", false, Gaps(c.args))
    else if c.args == [] then Layout("", true, [])
    else Layout("", true, [""] + Gaps(c.args[1..]))
  }

  /** The compact writer's layouts of a command list. */
  function CompactLayouts(cmds: seq<Command>, current: Option<char>): (r: seq<Layout>)
    ensures |r| == |cmds|
  {
    if cmds == [] then [] else [CompactLayout(cmds[0], current)] + CompactLayouts(cmds[1..], Some(cmds[0].letter))
  }

  /** The compact writer's gaps are separators of the general kind. */
  lemma {:induction false} ArgsTextSpaced(args: seq<string>)
    ensures ArgsText(args) == Spaced(args, Gaps(args))
    ensures ApartSeps(args, Gaps(args))
  {
    if args != [] {
      ArgsTextSpaced(args[1..]);
      assert Gaps(args)[1..] == Gaps(args[1..]);
    }
  }

  /** The compact writer writes each command in a good layout. */
  lemma CompactLayoutGood(c: Command, current: Option<char>)
    ensures |CompactLayout(c, current).seps| == |c.args|
    ensures CommandText(c, current) == Written(c, CompactLayout(c, current))
    ensures GoodLayout(c, CompactLayout(c, current), current)
  {
    if c.args != [] {
      if current == Some(c.letter) {
        ResumedCompact(c);
      } else {
        LetteredCompact(c, current);
      }
    }
  }

  lemma ResumedCompact(c: Command)
    requires c.args != []
    ensures CommandText(c, Some(c.letter)) == Written(c, Layout("", false, Gaps(c.args)))
    ensures GoodLayout(c, Layout("", false, Gaps(c.args)), Some(c.letter))
  {
    var a := c.args[0];
    ArgsTextSpaced(c.args);
    assert Gaps(c.args)[0] == Gap(a);
    assert Gaps(c.args)[1..] == Gaps(c.args[1..]);
    assert "" + Gaps(c.args)[0] == Gaps(c.args)[0];
  }

  lemma LetteredCompact(c: Command, current: Option<char>)
    requires c.args != []
    ensures [c.letter] + LeadText(c.args) == Written(c, Layout("", true, [""] + Gaps(c.args[1..])))
    ensures GoodLayout(c, Layout("", true, [""] + Gaps(c.args[1..])), current)
  {
    var a, tail := c.args[0], c.args[1..];
    var seps := [""] + Gaps(tail);
    ArgsTextSpaced(tail);
    assert seps[1..] == Gaps(tail);
    assert Spaced(c.args, seps) == "" + a + Spaced(tail, Gaps(tail));
  }

  lemma {:induction false} CompactWritten(cmds: seq<Command>, current: Option<char>)
    ensures Fits(cmds, CompactLayouts(cmds, current))
    ensures GoodLayouts(cmds, CompactLayouts(cmds, current), current)
    ensures Compact(cmds, current) == WrittenAll(cmds, CompactLayouts(cmds, current))
    decreases |cmds|
  {
    if cmds != [] {
      var ls := CompactLayouts(cmds, current);
      CompactWritten(cmds[1..], Some(cmds[0].letter));
      CompactLayoutGood(cmds[0], current);
      assert ls[1..] == CompactLayouts(cmds[1..], Some(cmds[0].letter));
    }
  }

  /** Round trip: tokenizing the compact text of well-formed commands gives
      back exactly those commands. */
  lemma TokenizeFromCompact(cmds: seq<Command>, current: Option<char>)
    requires AllWellFormed(cmds)
    ensures TokenizeFrom(Compact(cmds, current), current) == Ok(cmds)
  {
    CompactWritten(cmds, current);
    WrittenRoundTrip(cmds, CompactLayouts(cmds, current), current, "");
    assert WrittenAll(cmds, CompactLayouts(cmds, current)) + "" == Compact(cmds, current);
  }

  lemma TokenizeCompact(cmds: seq<Command>)
    requires AllWellFormed(cmds)
    ensures Tokenize(Compact(cmds, None)) == Ok(cmds)
  {
    TokenizeFromCompact(cmds, None);
  }
}
