/** The tokenizer `getPathCommands`: splits SVG path data into command
    records `{command, args}`. It accepts a subset of the path-data grammar of
    section 8.3 of SVG 1.1 and departs from it in two ways that the model keeps:
    whitespace is the only separator (no commas), and coordinate pairs after a
    moveto repeat the moveto instead of becoming linetos. */
module PathCommands {
  import opened Wrappers
  import opened PathSyntax

  /** One parsed command: its letter and its numeral arguments, as text. */
  datatype Command = Command(letter: char, args: seq<string>)

  /** Everything that can stop the path pipeline. */
  datatype PathError =
    | ExpectedCommand                  // data starts with something other than a letter
    | UnsupportedCommand(letter: char) // a letter outside the argument-count table
    | MissingArguments(letter: char)   // the data ends inside a command's arguments
    | BadArgument(letter: char)        // an argument position holds no numeral
    | NonTerminating                   // the script's loop would spin forever here
    | UnhandledCommand(letter: char)   // the evaluator has no case for this letter

  /** The fixed argument count of each letter the tokenizer knows; `None`
      for any other letter. */
  function ArgCount(letter: char): (r: Option<nat>)
    ensures r.Some? <==> IsCommandLetter(letter)
    ensures r == Some(0) <==> letter == 'Z' || letter == 'z'
  {
    if letter == 'L' || letter == 'l' || letter == 'M' || letter == 'm' || letter == 'T' || letter == 't' then Some(2)
    else if letter == 'H' || letter == 'h' || letter == 'V' || letter == 'v' then Some(1)
    else if letter == 'C' || letter == 'c' then Some(6)
    else if letter == 'Q' || letter == 'q' || letter == 'S' || letter == 's' then Some(4)
    else if letter == 'A' || letter == 'a' then Some(7)
    else if letter == 'Z' || letter == 'z' then Some(0)
    else None
  }

  /** The twenty letters of the path-data grammar. */
  predicate IsCommandLetter(c: char) {
    c in {'M', 'm', 'L', 'l', 'T', 't', 'H', 'h', 'V', 'v', 'C', 'c', 'Q', 'q', 'S', 's', 'A', 'a', 'Z', 'z'}
  }

  /** A command the tokenizer can produce: a known letter carrying exactly its
      argument count of numerals. */
  ghost predicate WellFormed(c: Command) {
    && ArgCount(c.letter).Some?
    && |c.args| == ArgCount(c.letter).value
    && AllNumerals(c.args)
  }

  ghost predicate AllWellFormed(cmds: seq<Command>) {
    forall i :: 0 <= i < |cmds| ==> WellFormed(cmds[i])
  }

  lemma AllWellFormedCons(c: Command, cmds: seq<Command>)
    requires WellFormed(c) && AllWellFormed(cmds)
    ensures AllWellFormed([c] + cmds)
  {
    assert forall i :: 0 < i <= |cmds| ==> ([c] + cmds)[i] == cmds[i - 1];
  }

  lemma AllWellFormedPrefix(cmds: seq<Command>, n: nat)
    requires AllWellFormed(cmds) && n <= |cmds|
    ensures AllWellFormed(cmds[..n])
  {
    assert forall i :: 0 <= i < n ==> cmds[..n][i] == cmds[i];
  }

  /** The inner loop: read `n` whitespace-separated numerals for `letter`. */
  function ReadArgs(d: string, letter: char, n: nat): (r: Result<(seq<string>, string), PathError>)
    decreases n
    ensures r.Ok? ==> |r.value.0| == n
    ensures r.Ok? ==> AllNumerals(r.value.0)
    ensures r.Ok? ==> |r.value.1| <= |d|
    ensures r.Ok? && n > 0 ==> |r.value.1| < |d|
    ensures n == 0 ==> r == Ok(([], d))
    ensures r.Err? ==> r.error in {MissingArguments(letter), BadArgument(letter)}
    ensures n > 0 && AllSpace(d) ==> r == Err(MissingArguments(letter))
    ensures n > 0 && !AllSpace(d) && NumberPrefix(TrimStart(d)) == 0 ==> r == Err(BadArgument(letter))
  {
    if n == 0 then Ok(([], d))
    else
      var t := TrimStart(d);
      if t == [] then Err(MissingArguments(letter))
      else
        var k := NumberPrefix(t);
        if k == 0 then Err(BadArgument(letter))
        else
          var more := ReadArgs(t[k..], letter, n - 1);
          if more.Err? then Err(more.error)
          else
            PrependNumeral(t[..k], more.value.0);
            Ok(([t[..k]] + more.value.0, more.value.1))
  }

  /** One pass of the outer loop, on data whose leading whitespace is gone:
      take an optional new letter (otherwise repeat `current`), look up its
      argument count and read the arguments. Returns the command and the data
      left over. */
  function Iteration(d: string, current: Option<char>): (r: Result<(Command, string), PathError>)
    requires d != [] && !IsSpace(d[0])
    ensures r.Ok? ==> WellFormed(r.value.0)
    ensures r.Ok? && IsLetter(d[0]) ==> r.value.0.letter == d[0]
    ensures r.Ok? && !IsLetter(d[0]) ==> current.Some? && r.value.0.letter == current.value
    ensures r.Ok? ==> |r.value.1| <= |d|
    ensures r.Ok? ==> (r.value.1 == d <==> !IsLetter(d[0]) && (r.value.0.letter == 'Z' || r.value.0.letter == 'z'))
    ensures r == Err(ExpectedCommand) <==> !IsLetter(d[0]) && current.None?
    ensures IsLetter(d[0]) && ArgCount(d[0]).None? ==> r == Err(UnsupportedCommand(d[0]))
  {
    var (cur, rest) := if IsLetter(d[0]) then (Some(d[0]), d[1..]) else (current, d);
    if cur.None? then Err(ExpectedCommand)
    else
      var letter := cur.value;
      match ArgCount(letter)
      case None => Err(UnsupportedCommand(letter))
      case Some(n) =>
        match ReadArgs(rest, letter, n)
        case Err(e) => Err(e)
        case Ok((args, rest')) => Ok((Command(letter, args), rest'))
  }

  /** The outer loop from a given point: trim whitespace, stop at the end,
      otherwise run one iteration and continue with its letter as the current
      one. An iteration that consumes nothing (the current letter is `z`/`Z`
      and the next character is not a letter) would be repeated forever by the
      script; it is reported as `NonTerminating`. */
  function TokenizeFrom(d: string, current: Option<char>): (r: Result<seq<Command>, PathError>)
    ensures r.Ok? ==> AllWellFormed(r.value)
    ensures r == Ok([]) <==> AllSpace(d)
    ensures r.Ok? && current.None? && r.value != [] ==> IsLetter(r.value[0].letter)
    ensures r == Err(ExpectedCommand) <==>
      current.None? && !AllSpace(d) && !IsLetter(TrimStart(d)[0])
    decreases |d|
  {
    var t := TrimStart(d);
    if t == [] then Ok([])
    else
      assert !AllSpace(d);
      var step := Iteration(t, current);
      if step.Err? then Err(step.error)
      else
        var cmd := step.value.0;
        var rest := step.value.1;
        if |rest| == |t| then Err(NonTerminating)
        else
          var tail := TokenizeFrom(rest, Some(cmd.letter));
          if tail.Err? then
            assert tail.error != ExpectedCommand;
            Err(tail.error)
          else
            AllWellFormedCons(cmd, tail.value);
            Ok([cmd] + tail.value)
  }

  /** `getPathCommands(d)`. */
  function Tokenize(d: string): (r: Result<seq<Command>, PathError>)
    ensures r.Ok? ==> AllWellFormed(r.value)
    ensures r == Ok([]) <==> AllSpace(d)
  {
    TokenizeFrom(d, None)
  }

  /** Where the tokenizer reports `NonTerminating`, the script's loop state
      (remaining data and current letter) is a fixed point of one pass of the
      loop body, which only exits on empty data: the script never returns. */
  lemma IterationStuck(t: string, current: Option<char>)
    requires t != [] && !IsSpace(t[0])
    requires Iteration(t, current).Ok?
    requires |Iteration(t, current).value.1| == |t|
    ensures TrimStart(Iteration(t, current).value.1) == t
    ensures Iteration(t, Some(Iteration(t, current).value.0.letter)) == Iteration(t, current)
  {
  }

  /** A failing pass fails the whole tokenization with its error: an
      unsupported letter, data that ends inside the arguments, or an
      argument position without a numeral. */
  lemma CommandFails(d: string, current: Option<char>)
    requires !AllSpace(d)
    requires Iteration(TrimStart(d), current).Err?
    ensures TokenizeFrom(d, current) == Err(Iteration(TrimStart(d), current).error)
  {
  }

  /** `Tokenize` reports "Expected command" exactly when the first
      non-whitespace character is not a letter. */
  lemma ExpectedCommandIff(d: string)
    ensures Tokenize(d) == Err(ExpectedCommand) <==> !AllSpace(d) && !IsLetter(TrimStart(d)[0])
  {
  }

  lemma LetterOfTable(c: char)
    requires ArgCount(c).Some?
    ensures IsLetter(c) && !IsSpace(c) && !IsDigit(c) && c != '.'
  {
  }

  lemma TrimStartNonSpace(s: string)
    requires s != [] && !IsSpace(s[0])
    ensures TrimStart(s) == s
  {
  }

  /** `ReadArgs` unfolded once, when an argument is present. */
  lemma ReadArgsStep(d: string, t: string, k: nat, letter: char, m: nat)
    requires TrimStart(d) == t && 0 < k == NumberPrefix(t)
    ensures ReadArgs(d, letter, m + 1) ==
      var more := ReadArgs(t[k..], letter, m);
      if more.Err? then Err(more.error) else Ok(([t[..k]] + more.value.0, more.value.1))
  {
  }

  /** `Iteration` unfolded once, for a letter from the table: written at
      the head of the data, or else the current one. */
  lemma IterationBody(d: string, current: Option<char>, letter: char, rest: string, n: nat)
    requires d != [] && !IsSpace(d[0]) && ArgCount(letter) == Some(n)
    requires IsLetter(d[0]) ==> letter == d[0] && rest == d[1..]
    requires !IsLetter(d[0]) ==> current == Some(letter) && rest == d
    ensures Iteration(d, current) ==
      var r := ReadArgs(rest, letter, n);
      if r.Err? then Err(r.error) else Ok((Command(letter, r.value.0), r.value.1))
  {
  }

  lemma AllWellFormedSplit(cmds: seq<Command>)
    requires cmds != [] && AllWellFormed(cmds)
    ensures WellFormed(cmds[0]) && AllWellFormed(cmds[1..]) && [cmds[0]] + cmds[1..] == cmds
  {
    assert forall i :: 0 <= i < |cmds| - 1 ==> cmds[1..][i] == cmds[i + 1];
  }

  /** `TokenizeFrom` unfolded once, when an iteration reads a command and
      consumes something. */
  lemma TokenizeFromStep(d: string, current: Option<char>, c: Command, rest: string, cs: seq<Command>)
    requires TrimStart(d) != []
    requires Iteration(TrimStart(d), current) == Ok((c, rest))
    requires |rest| < |TrimStart(d)|
    requires TokenizeFrom(rest, Some(c.letter)) == Ok(cs)
    ensures TokenizeFrom(d, current) == Ok([c] + cs)
  {
  }

  /** An error after a command that was read fails the whole tokenization. */
  lemma TokenizeFromStepFails(d: string, current: Option<char>, c: Command, rest: string, e: PathError)
    requires TrimStart(d) != []
    requires Iteration(TrimStart(d), current) == Ok((c, rest))
    requires |rest| < |TrimStart(d)|
    requires TokenizeFrom(rest, Some(c.letter)) == Err(e)
    ensures TokenizeFrom(d, current) == Err(e)
  {
  }
}
