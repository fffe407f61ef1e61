/** The choice of the button to click in `navigate`: every candidate icon is
    classified, and the first one whose verdict is the requested direction
    wins. A candidate is represented by the `d` attribute of its first `path`
    child, or `None` when it has no path child or the path has no `d`. */
module ArrowButtons {
  import opened Wrappers
  import opened PathCommands
  import opened ArrowDirection

  /** The verdict the script wants: 1 for the right arrow, -1 for the left. */
  function Want(right: bool): int {
    if right then 1 else -1
  }

  /** The verdict for one candidate. A missing or empty `d` drops the
      candidate, which can never match a wanted verdict, so it counts as 0. */
  function CandidateDirection(d: Option<string>): (r: Result<int, PathError>)
    ensures r.Ok? ==> -1 <= r.value <= 1
    ensures (d.None? || d.value == []) ==> r == Ok(0)
  {
    if d.None? || d.value == [] then Ok(0) else PathArrowDirection(d.value)
  }

  /** The `.map` over all candidates, in order: the first candidate whose
      path data makes the classifier fail (or never return) ends the whole
      pick with that failure. */
  function Directions(ds: seq<Option<string>>): (r: Result<seq<int>, PathError>)
    ensures r.Ok? <==> forall i :: 0 <= i < |ds| ==> CandidateDirection(ds[i]).Ok?
    ensures r.Ok? ==> |r.value| == |ds|
    ensures r.Ok? ==> forall i :: 0 <= i < |ds| ==> CandidateDirection(ds[i]) == Ok(r.value[i])
    ensures r.Err? ==> exists i :: 0 <= i < |ds| && FirstFailure(ds, i) && CandidateDirection(ds[i]) == Err(r.error)
  {
    if ds == [] then Ok([])
    else
      var head := CandidateDirection(ds[0]);
      if head.Err? then
        assert FirstFailure(ds, 0);
        Err(head.error)
      else
        var tail := Directions(ds[1..]);
        assert forall i :: 1 <= i < |ds| ==> ds[1..][i - 1] == ds[i];
        if tail.Err? then
          FailureInTail(ds, tail.error);
          Err(tail.error)
        else
          Ok([head.value] + tail.value)
  }

  /** Candidate `i` fails and every candidate before it succeeds. */
  ghost predicate FirstFailure(ds: seq<Option<string>>, i: int)
    requires 0 <= i < |ds|
  {
    && CandidateDirection(ds[i]).Err?
    && forall j :: 0 <= j < i ==> CandidateDirection(ds[j]).Ok?
  }

  lemma FailureInTail(ds: seq<Option<string>>, e: PathError)
    requires |ds| > 0 && CandidateDirection(ds[0]).Ok?
    requires exists i :: 0 <= i < |ds| - 1 && FirstFailure(ds[1..], i) && CandidateDirection(ds[1..][i]) == Err(e)
    ensures exists i :: 0 <= i < |ds| && FirstFailure(ds, i) && CandidateDirection(ds[i]) == Err(e)
  {
    var i :| 0 <= i < |ds| - 1 && FirstFailure(ds[1..], i) && CandidateDirection(ds[1..][i]) == Err(e);
    assert forall j :: 1 <= j <= i + 1 ==> ds[1..][j - 1] == ds[j];
    assert FirstFailure(ds, i + 1);
  }

  /** `.filter(x => x.direction === want)[0]`: the first index whose verdict
      is `want`, searching from `k`. */
  function FirstWith(dirs: seq<int>, want: int, k: nat): (r: Option<nat>)
    requires k <= |dirs|
    ensures r.Some? ==> k <= r.value < |dirs| && dirs[r.value] == want
    ensures r.Some? ==> forall j :: k <= j < r.value ==> dirs[j] != want
    ensures r.None? ==> forall j :: k <= j < |dirs| ==> dirs[j] != want
    decreases |dirs| - k
  {
    if k == |dirs| then None
    else if dirs[k] == want then Some(k)
    else FirstWith(dirs, want, k + 1)
  }

  /** The index of the candidate the script clicks: `Ok(None)` logs "Unable
      to find … arrow button", an error is the exception that aborts the
      navigation. */
  function PickArrowButton(ds: seq<Option<string>>, right: bool): (r: Result<Option<nat>, PathError>)
    ensures r.Ok? <==> forall i :: 0 <= i < |ds| ==> CandidateDirection(ds[i]).Ok?
    ensures r.Err? ==> exists i :: 0 <= i < |ds| && FirstFailure(ds, i) && CandidateDirection(ds[i]) == Err(r.error)
    ensures r.Ok? && r.value.Some? ==>
      && r.value.value < |ds|
      && CandidateDirection(ds[r.value.value]) == Ok(Want(right))
      && forall j :: 0 <= j < r.value.value ==> CandidateDirection(ds[j]) != Ok(Want(right))
    ensures r.Ok? && r.value.None? ==> forall i :: 0 <= i < |ds| ==> CandidateDirection(ds[i]) != Ok(Want(right))
  {
    var dirs := Directions(ds);
    if dirs.Err? then Err(dirs.error) else Ok(FirstWith(dirs.value, Want(right), 0))
  }
}
