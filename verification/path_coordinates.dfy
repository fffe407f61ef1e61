/** The evaluator `getPathAbsoluteCoordinates`: runs tokenized commands
    against a cursor and a remembered subpath start and emits one absolute
    point per command. Only `h H l L m M z Z` are evaluated. */
module PathCoordinates {
  import opened Wrappers
  import opened PathSyntax
  import opened PathCommands

  datatype Point = Point(x: real, y: real)

  const Origin := Point(0.0, 0.0)

  /** The evaluator's state: the cursor `(x, y)` and the subpath start
      `(initialX, initialY)`. */
  datatype Cursor = Cursor(pos: Point, start: Point)

  /** The letters the `switch` has a case for: `h H l L m M z Z`. */
  predicate IsEvaluated(letter: char) {
    || letter == 'h' || letter == 'H' || letter == 'l' || letter == 'L'
    || letter == 'm' || letter == 'M' || letter == 'z' || letter == 'Z'
  }

  predicate IsMoveto(letter: char) {
    letter == 'm' || letter == 'M'
  }

  predicate IsClose(letter: char) {
    letter == 'z' || letter == 'Z'
  }

  /** The value of argument `i` (the script's `f(args[i])`; the NaN check
      there never fires, since every argument is a numeral). */
  function Arg(c: Command, i: nat): real
    requires WellFormed(c) && i < |c.args|
  {
    NumeralValue(c.args[i])
  }

  /** One case of the `switch`. */
  function Apply(cur: Cursor, c: Command): (r: Result<Cursor, PathError>)
    requires WellFormed(c)
    ensures r.Ok? <==> IsEvaluated(c.letter)
    ensures r.Err? ==> r.error == UnhandledCommand(c.letter)
    ensures r.Ok? && !IsMoveto(c.letter) ==> r.value.start == cur.start
    ensures r.Ok? && IsMoveto(c.letter) ==> r.value.start == r.value.pos
  {
    match c.letter
    case 'h' => Ok(cur.(pos := Point(cur.pos.x + Arg(c, 0), cur.pos.y)))
    case 'H' => Ok(cur.(pos := Point(Arg(c, 0), cur.pos.y)))
    case 'l' => Ok(cur.(pos := Point(cur.pos.x + Arg(c, 0), cur.pos.y + Arg(c, 1))))
    case 'L' => Ok(cur.(pos := Point(Arg(c, 0), Arg(c, 1))))
    case 'm' =>
      var p := Point(cur.pos.x + Arg(c, 0), cur.pos.y + Arg(c, 1));
      Ok(Cursor(p, p))
    case 'M' =>
      var p := Point(Arg(c, 0), Arg(c, 1));
      Ok(Cursor(p, p))
    case 'z' => Ok(cur.(pos := cur.start))
    case 'Z' => Ok(cur.(pos := cur.start))
    case _ => Err(UnhandledCommand(c.letter))
  }

  /** The point before command `i`: the previous output, or the origin. */
  function Before(pts: seq<Point>, i: nat): Point
    requires i <= |pts|
  {
    if i == 0 then Origin else pts[i - 1]
  }

  /** No moveto among `cmds[lo..hi]`. */
  ghost predicate NoMovetoIn(cmds: seq<Command>, lo: int, hi: int)
    requires 0 <= lo <= hi <= |cmds|
  {
    forall k :: lo <= k < hi ==> !IsMoveto(cmds[k].letter)
  }

  /** The subpath start in effect before command `i`, described without a
      cursor: the point of the most recent moveto before `i`, or the origin
      when there is none. */
  ghost predicate IsStartBefore(cmds: seq<Command>, pts: seq<Point>, i: nat, p: Point)
    requires i <= |cmds| == |pts|
  {
    || (NoMovetoIn(cmds, 0, i) && p == Origin)
    || (exists j :: 0 <= j < i && IsMoveto(cmds[j].letter) && NoMovetoIn(cmds, j + 1, i) && p == pts[j])
  }

  /** The `for ... of commands` loop, as the state after each prefix of the
      command list: points emitted so far and the cursor. An unhandled letter
      stops the loop at the first command that has it. */
  function Run(cmds: seq<Command>): (r: Result<(seq<Point>, Cursor), PathError>)
    requires AllWellFormed(cmds)
    ensures r.Ok? <==> forall i :: 0 <= i < |cmds| ==> IsEvaluated(cmds[i].letter)
    ensures r.Ok? ==> |r.value.0| == |cmds|
    ensures r.Ok? ==> r.value.1.pos == Before(r.value.0, |cmds|)
    decreases |cmds|
  {
    if cmds == [] then Ok(([], Cursor(Origin, Origin)))
    else
      var n := |cmds| - 1;
      AllWellFormedPrefix(cmds, n);
      var prefix := Run(cmds[..n]);
      assert forall i :: 0 <= i < n ==> cmds[..n][i] == cmds[i];
      if prefix.Err? then Err(prefix.error)
      else
        var next := Apply(prefix.value.1, cmds[n]);
        if next.Err? then Err(next.error)
        else Ok((prefix.value.0 + [next.value.pos], next.value))
  }

  /** `getPathAbsoluteCoordinates` after tokenizing: the emitted points. */
  function Evaluate(cmds: seq<Command>): (r: Result<seq<Point>, PathError>)
    requires AllWellFormed(cmds)
    ensures r.Ok? <==> forall i :: 0 <= i < |cmds| ==> IsEvaluated(cmds[i].letter)
    ensures r.Ok? ==> |r.value| == |cmds|
  {
    var run := Run(cmds);
    if run.Err? then Err(run.error) else Ok(run.value.0)
  }

  /** `getPathAbsoluteCoordinates(d)`. */
  function AbsoluteCoordinates(d: string): (r: Result<seq<Point>, PathError>)
    ensures r.Ok? <==>
      && Tokenize(d).Ok?
      && forall i :: 0 <= i < |Tokenize(d).value| ==> IsEvaluated(Tokenize(d).value[i].letter)
    ensures r.Ok? ==> |r.value| == |Tokenize(d).value|
    ensures Tokenize(d).Err? ==> r == Err(Tokenize(d).error)
  {
    var cmds := Tokenize(d);
    if cmds.Err? then Err(cmds.error) else Evaluate(cmds.value)
  }

  /** Which point is the subpath start before command `i` depends only on
      the commands and points before it. */
  lemma StartBeforePrefix(cmds: seq<Command>, pts: seq<Point>, n: nat, i: nat, p: Point)
    requires i <= n <= |cmds| == |pts|
    ensures IsStartBefore(cmds[..n], pts[..n], i, p) <==> IsStartBefore(cmds, pts, i, p)
  {
    assert forall k :: 0 <= k < n ==> cmds[..n][k] == cmds[k];
    assert forall k :: 0 <= k < n ==> pts[..n][k] == pts[k];
    if IsStartBefore(cmds, pts, i, p) && !NoMovetoIn(cmds, 0, i) {
      var j :| 0 <= j < i && IsMoveto(cmds[j].letter) && NoMovetoIn(cmds, j + 1, i) && p == pts[j];
      assert IsMoveto(cmds[..n][j].letter) && NoMovetoIn(cmds[..n], j + 1, i);
    }
  }

  /** A command other than a moveto keeps the subpath start. */
  lemma StartBeforeSkip(cmds: seq<Command>, pts: seq<Point>, n: nat, p: Point)
    requires n < |cmds| == |pts| && !IsMoveto(cmds[n].letter)
    requires IsStartBefore(cmds, pts, n, p)
    ensures IsStartBefore(cmds, pts, n + 1, p)
  {
    if !NoMovetoIn(cmds, 0, n) {
      var j :| 0 <= j < n && IsMoveto(cmds[j].letter) && NoMovetoIn(cmds, j + 1, n) && p == pts[j];
      assert NoMovetoIn(cmds, j + 1, n + 1);
    }
  }

  /** A moveto makes its own point the subpath start. */
  lemma StartBeforeMoveto(cmds: seq<Command>, pts: seq<Point>, n: nat)
    requires n < |cmds| == |pts| && IsMoveto(cmds[n].letter)
    ensures IsStartBefore(cmds, pts, n + 1, pts[n])
  {
    assert NoMovetoIn(cmds, n + 1, n + 1);
  }

  /** The cursor's subpath start after a run is the point of the most recent
      moveto, or the origin when there was none. */
  lemma {:induction false} RunStart(cmds: seq<Command>)
    requires AllWellFormed(cmds)
    requires Run(cmds).Ok?
    ensures IsStartBefore(cmds, Run(cmds).value.0, |cmds|, Run(cmds).value.1.start)
  {
    if cmds != [] {
      var n := |cmds| - 1;
      AllWellFormedPrefix(cmds, n);
      var prefix := Run(cmds[..n]);
      var pts := Run(cmds).value.0;
      var start := Run(cmds).value.1.start;
      assert pts[..n] == prefix.value.0;
      RunStart(cmds[..n]);
      StartBeforePrefix(cmds, pts, n, n, prefix.value.1.start);
      if IsMoveto(cmds[n].letter) {
        assert start == pts[n];
        StartBeforeMoveto(cmds, pts, n);
      } else {
        assert start == prefix.value.1.start;
        StartBeforeSkip(cmds, pts, n, start);
      }
    }
  }

  /** A run that succeeds succeeds on every prefix, with the prefix of its
      points. */
  lemma {:induction false} RunPrefix(cmds: seq<Command>, k: nat)
    requires AllWellFormed(cmds) && k <= |cmds|
    requires Run(cmds).Ok?
    ensures AllWellFormed(cmds[..k])
    ensures Run(cmds[..k]).Ok? && Run(cmds[..k]).value.0 == Run(cmds).value.0[..k]
    decreases |cmds| - k
  {
    AllWellFormedPrefix(cmds, k);
    if k < |cmds| {
      var n := |cmds| - 1;
      AllWellFormedPrefix(cmds, n);
      assert Run(cmds[..n]).value.0 == Run(cmds).value.0[..n];
      RunPrefix(cmds[..n], k);
      assert cmds[..n][..k] == cmds[..k];
    } else {
      assert cmds[..k] == cmds;
    }
  }

  /** What the evaluator emits for command `i`, stated from the command, the
      previous point and the history of movetos, without the cursor: `H`,
      `L`, `M` set coordinates absolutely, `h`, `l`, `m` add to the previous
      point, `h`/`H` keep its y, and `z`/`Z` return to the start of the current
      subpath. */
  ghost predicate PointRule(cmds: seq<Command>, pts: seq<Point>, i: nat)
    requires i < |cmds| == |pts| && AllWellFormed(cmds)
  {
    var c := cmds[i];
    var b := Before(pts, i);
    assert WellFormed(c);
    && (c.letter == 'H' ==> pts[i] == Point(Arg(c, 0), b.y))
    && (c.letter == 'h' ==> pts[i] == Point(b.x + Arg(c, 0), b.y))
    && (c.letter == 'L' || c.letter == 'M' ==> pts[i] == Point(Arg(c, 0), Arg(c, 1)))
    && (c.letter == 'l' || c.letter == 'm' ==> pts[i] == Point(b.x + Arg(c, 0), b.y + Arg(c, 1)))
    && (IsClose(c.letter) ==> IsStartBefore(cmds, pts, i, pts[i]))
  }

  lemma PointAt(cmds: seq<Command>, i: nat)
    requires AllWellFormed(cmds) && i < |cmds|
    requires Run(cmds).Ok?
    ensures PointRule(cmds, Run(cmds).value.0, i)
  {
    RunStep(cmds, i);
    RuleFromStep(cmds, Run(cmds).value.0, i, Run(cmds[..i]).value.1);
  }

  /** `PointRule` holds at `i` once the point there is the cursor position
      `Apply` computes from the cursor `cur` left by the commands before. */
  lemma RuleFromStep(cmds: seq<Command>, pts: seq<Point>, i: nat, cur: Cursor)
    requires AllWellFormed(cmds) && i < |cmds| == |pts|
    requires WellFormed(cmds[i]) && Apply(cur, cmds[i]).Ok?
    requires pts[i] == Apply(cur, cmds[i]).value.pos
    requires cur.pos == Before(pts, i)
    requires IsStartBefore(cmds, pts, i, cur.start)
    ensures PointRule(cmds, pts, i)
  {
    ApplyRule(cur, cmds[i]);
  }

  /** The point of command `i` is what `Apply` makes of the cursor left by
      the commands before it. */
  lemma RunStep(cmds: seq<Command>, i: nat)
    requires AllWellFormed(cmds) && i < |cmds|
    requires Run(cmds).Ok?
    ensures AllWellFormed(cmds[..i]) && Run(cmds[..i]).Ok?
    ensures WellFormed(cmds[i]) && Apply(Run(cmds[..i]).value.1, cmds[i]).Ok?
    ensures Run(cmds).value.0[i] == Apply(Run(cmds[..i]).value.1, cmds[i]).value.pos
    ensures Run(cmds[..i]).value.1.pos == Before(Run(cmds).value.0, i)
    ensures IsStartBefore(cmds, Run(cmds).value.0, i, Run(cmds[..i]).value.1.start)
  {
    var pts := Run(cmds).value.0;
    RunPrefix(cmds, i + 1);
    RunPrefix(cmds, i);
    var upto := cmds[..i + 1];
    assert upto[..|upto| - 1] == cmds[..i];
    assert upto[i] == cmds[i];
    var cur := Run(cmds[..i]).value.1;
    assert Run(upto).value.0 == pts[..i] + [Apply(cur, cmds[i]).value.pos];
    assert pts[i] == Run(upto).value.0[i];
    RunStart(cmds[..i]);
    StartBeforePrefix(cmds, pts, i, i, cur.start);
  }

  /** What `Apply` does to the cursor position, letter by letter. */
  lemma ApplyRule(cur: Cursor, c: Command)
    requires WellFormed(c) && IsEvaluated(c.letter)
    ensures c.letter == 'H' ==> Apply(cur, c).value.pos == Point(Arg(c, 0), cur.pos.y)
    ensures c.letter == 'h' ==> Apply(cur, c).value.pos == Point(cur.pos.x + Arg(c, 0), cur.pos.y)
    ensures c.letter == 'L' || c.letter == 'M' ==> Apply(cur, c).value.pos == Point(Arg(c, 0), Arg(c, 1))
    ensures c.letter == 'l' || c.letter == 'm' ==>
      Apply(cur, c).value.pos == Point(cur.pos.x + Arg(c, 0), cur.pos.y + Arg(c, 1))
    ensures IsClose(c.letter) ==> Apply(cur, c).value.pos == cur.start
  {
  }

  /** Every emitted point follows `PointRule`. */
  lemma EvaluatePointwise(cmds: seq<Command>)
    requires AllWellFormed(cmds)
    requires Evaluate(cmds).Ok?
    ensures forall i :: 0 <= i < |cmds| ==> PointRule(cmds, Evaluate(cmds).value, i)
  {
    forall i | 0 <= i < |cmds|
      ensures PointRule(cmds, Evaluate(cmds).value, i)
    {
      PointAt(cmds, i);
    }
  }

  /** The evaluator stops at the first command it has no case for and
      reports that command's letter; no partial point list escapes. */
  lemma {:induction false} RunFirstUnhandled(cmds: seq<Command>, k: nat)
    requires AllWellFormed(cmds) && k < |cmds|
    requires !IsEvaluated(cmds[k].letter)
    requires forall j :: 0 <= j < k ==> IsEvaluated(cmds[j].letter)
    ensures Run(cmds) == Err(UnhandledCommand(cmds[k].letter))
  {
    var n := |cmds| - 1;
    AllWellFormedPrefix(cmds, n);
    if k < n {
      assert cmds[..n][k] == cmds[k];
      assert forall j :: 0 <= j < k ==> cmds[..n][j] == cmds[j];
      RunFirstUnhandled(cmds[..n], k);
    } else {
      assert forall j :: 0 <= j < n ==> cmds[..n][j] == cmds[j];
      assert Run(cmds[..n]).Ok?;
    }
  }

  lemma EvaluateFirstUnhandled(cmds: seq<Command>, k: nat)
    requires AllWellFormed(cmds) && k < |cmds|
    requires !IsEvaluated(cmds[k].letter)
    requires forall j :: 0 <= j < k ==> IsEvaluated(cmds[j].letter)
    ensures Evaluate(cmds) == Err(UnhandledCommand(cmds[k].letter))
  {
    RunFirstUnhandled(cmds, k);
  }
}
