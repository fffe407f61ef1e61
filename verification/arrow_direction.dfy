/** The classifier `getPathArrowDirection`: decides whether the points of an
    icon outline form a left caret (-1), a right caret (1) or neither (0), by
    comparing the mean x of the points inside the central half of the y range
    with the mean x of the points outside it. */
module ArrowDirection {
  import opened Wrappers
  import opened PathSyntax
  import opened PathCommands
  import opened PathCoordinates
  import opened Means

  /** The smallest y (`yValues[0]` after the ascending sort). */
  function MinY(pts: seq<Point>): (m: real)
    requires |pts| > 0
    ensures forall i :: 0 <= i < |pts| ==> m <= pts[i].y
    ensures exists i :: 0 <= i < |pts| && pts[i].y == m
  {
    if |pts| == 1 then pts[0].y
    else
      var rest := MinY(pts[1..]);
      assert forall i :: 1 <= i < |pts| ==> pts[1..][i - 1] == pts[i];
      if pts[0].y <= rest then pts[0].y else rest
  }

  /** The largest y (the last element of the sorted `yValues`). */
  function MaxY(pts: seq<Point>): (m: real)
    requires |pts| > 0
    ensures forall i :: 0 <= i < |pts| ==> pts[i].y <= m
    ensures exists i :: 0 <= i < |pts| && pts[i].y == m
  {
    if |pts| == 1 then pts[0].y
    else
      var rest := MaxY(pts[1..]);
      assert forall i :: 1 <= i < |pts| ==> pts[1..][i - 1] == pts[i];
      if pts[0].y >= rest then pts[0].y else rest
  }

  /** `yMidLow`: a quarter of the height above the lowest y. */
  function MidLow(pts: seq<Point>): real
    requires |pts| > 0
  {
    MinY(pts) + 0.25 * (MaxY(pts) - MinY(pts))
  }

  /** `yMidHigh`: three quarters of the height above the lowest y. */
  function MidHigh(pts: seq<Point>): real
    requires |pts| > 0
  {
    MinY(pts) + 0.75 * (MaxY(pts) - MinY(pts))
  }

  /** A y in the closed band `[low, high]`; both ends count as mid. */
  predicate IsMid(y: real, low: real, high: real) {
    !(y < low || y > high)
  }

  /** `midXValues`: the x of each point inside the band, in order. */
  function MidXs(pts: seq<Point>, low: real, high: real): (r: seq<real>)
    ensures |r| <= |pts|
  {
    if pts == [] then []
    else
      (if IsMid(pts[0].y, low, high) then [pts[0].x] else []) + MidXs(pts[1..], low, high)
  }

  /** `extremeXValues`: the x of each point outside the band, in order. */
  function ExtremeXs(pts: seq<Point>, low: real, high: real): (r: seq<real>)
    ensures |r| <= |pts|
  {
    if pts == [] then []
    else
      (if IsMid(pts[0].y, low, high) then [] else [pts[0].x]) + ExtremeXs(pts[1..], low, high)
  }

  /** `midXValues` of the whole point list. */
  function MidBucket(pts: seq<Point>): seq<real>
    requires |pts| > 0
  {
    MidXs(pts, MidLow(pts), MidHigh(pts))
  }

  /** `extremeXValues` of the whole point list. */
  function ExtremeBucket(pts: seq<Point>): seq<real>
    requires |pts| > 0
  {
    ExtremeXs(pts, MidLow(pts), MidHigh(pts))
  }

  /** `getPathArrowDirection` on already evaluated points. With no points the
      script's band is NaN, both buckets stay empty and it answers 0. */
  function Direction(pts: seq<Point>): (r: int)
    ensures -1 <= r <= 1
    ensures r != 0 ==> |pts| > 0 && MidBucket(pts) != [] && ExtremeBucket(pts) != []
  {
    if |pts| == 0 then 0 else CompareMeans(MidBucket(pts), ExtremeBucket(pts))
  }

  /** `getPathArrowDirection(d)`: tokenize, evaluate, classify. */
  function PathArrowDirection(d: string): (r: Result<int, PathError>)
    ensures r.Ok? <==> AbsoluteCoordinates(d).Ok?
    ensures r.Ok? ==> -1 <= r.value <= 1
    ensures r.Err? ==> r.error == AbsoluteCoordinates(d).error
    ensures AllSpace(d) ==> r == Ok(0)
  {
    var pts := AbsoluteCoordinates(d);
    if pts.Err? then Err(pts.error) else Ok(Direction(pts.value))
  }

  /** A bucket is empty exactly when no point falls on its side of the band. */
  lemma {:induction false} BucketsEmpty(pts: seq<Point>, low: real, high: real)
    ensures MidXs(pts, low, high) == [] <==> forall i :: 0 <= i < |pts| ==> !IsMid(pts[i].y, low, high)
    ensures ExtremeXs(pts, low, high) == [] <==> forall i :: 0 <= i < |pts| ==> IsMid(pts[i].y, low, high)
  {
    if pts != [] {
      BucketsEmpty(pts[1..], low, high);
      assert forall i :: 1 <= i < |pts| ==> pts[1..][i - 1] == pts[i];
    }
  }

  /** A verdict other than 0 needs a point inside the band and one outside. */
  lemma DirectionNeedsBothSides(pts: seq<Point>)
    ensures Direction(pts) != 0 ==>
      && |pts| > 0
      && (exists i :: 0 <= i < |pts| && IsMid(pts[i].y, MidLow(pts), MidHigh(pts)))
      && (exists j :: 0 <= j < |pts| && !IsMid(pts[j].y, MidLow(pts), MidHigh(pts)))
  {
    if |pts| > 0 {
      BucketsEmpty(pts, MidLow(pts), MidHigh(pts));
    }
  }

  /** Every point lands in exactly one bucket: the buckets together hold the
      x of every point, once. */
  lemma {:induction false} Partition(pts: seq<Point>, low: real, high: real)
    ensures |MidXs(pts, low, high)| + |ExtremeXs(pts, low, high)| == |pts|
    ensures multiset(MidXs(pts, low, high)) + multiset(ExtremeXs(pts, low, high)) == multiset(Xs(pts))
  {
    if pts != [] {
      Partition(pts[1..], low, high);
      assert Xs(pts) == [pts[0].x] + Xs(pts[1..]);
    }
  }

  /** Each point's x lands in the bucket its y selects. */
  lemma {:induction false} BucketOf(pts: seq<Point>, low: real, high: real, i: nat)
    requires i < |pts|
    ensures IsMid(pts[i].y, low, high) ==> pts[i].x in MidXs(pts, low, high)
    ensures !IsMid(pts[i].y, low, high) ==> pts[i].x in ExtremeXs(pts, low, high)
  {
    if i > 0 {
      BucketOf(pts[1..], low, high, i - 1);
      assert pts[1..][i - 1] == pts[i];
    }
  }

  /** The band is closed: a point lying exactly on the quarter or the
      three-quarter line is a mid point. */
  lemma BoundaryIsMid(pts: seq<Point>, i: nat)
    requires i < |pts|
    requires pts[i].y == MidLow(pts) || pts[i].y == MidHigh(pts)
    ensures pts[i].x in MidBucket(pts)
  {
    assert MinY(pts) <= pts[i].y <= MaxY(pts);
    assert IsMid(pts[i].y, MidLow(pts), MidHigh(pts));
    BucketOf(pts, MidLow(pts), MidHigh(pts), i);
  }

  function Xs(pts: seq<Point>): (r: seq<real>)
    ensures |r| == |pts|
  {
    if pts == [] then [] else [pts[0].x] + Xs(pts[1..])
  }

  /** Points sharing one y value give a zero-height band that holds all of
      them, so the extreme bucket is empty and the verdict is 0. */
  lemma FlatIsNeutral(pts: seq<Point>)
    requires forall i, j :: 0 <= i < |pts| && 0 <= j < |pts| ==> pts[i].y == pts[j].y
    ensures Direction(pts) == 0
  {
    if |pts| > 0 {
      assert MinY(pts) == MaxY(pts) == pts[0].y;
      assert forall i :: 0 <= i < |pts| ==> IsMid(pts[i].y, MidLow(pts), MidHigh(pts));
      BucketsEmpty(pts, MidLow(pts), MidHigh(pts));
    }
  }

  /** The outline mirrored left to right: every x negated. */
  function MirrorX(pts: seq<Point>): (r: seq<Point>)
    ensures |r| == |pts|
  {
    seq(|pts|, i requires 0 <= i < |pts| => Point(-pts[i].x, pts[i].y))
  }

  /** The outline turned upside down: every y negated. */
  function FlipY(pts: seq<Point>): (r: seq<Point>)
    ensures |r| == |pts|
  {
    seq(|pts|, i requires 0 <= i < |pts| => Point(pts[i].x, -pts[i].y))
  }

  /** The outline moved by `(dx, dy)`. */
  function Translate(pts: seq<Point>, dx: real, dy: real): (r: seq<Point>)
    ensures |r| == |pts|
  {
    seq(|pts|, i requires 0 <= i < |pts| => Point(pts[i].x + dx, pts[i].y + dy))
  }

  /** A lower bound that some point attains is the minimum. */
  lemma MinYIs(pts: seq<Point>, m: real)
    requires |pts| > 0
    requires forall i :: 0 <= i < |pts| ==> m <= pts[i].y
    requires exists i :: 0 <= i < |pts| && pts[i].y == m
    ensures MinY(pts) == m
  {
    var i :| 0 <= i < |pts| && pts[i].y == m;
    var j :| 0 <= j < |pts| && pts[j].y == MinY(pts);
  }

  /** An upper bound that some point attains is the maximum. */
  lemma MaxYIs(pts: seq<Point>, m: real)
    requires |pts| > 0
    requires forall i :: 0 <= i < |pts| ==> pts[i].y <= m
    requires exists i :: 0 <= i < |pts| && pts[i].y == m
    ensures MaxY(pts) == m
  {
    var i :| 0 <= i < |pts| && pts[i].y == m;
    var j :| 0 <= j < |pts| && pts[j].y == MaxY(pts);
  }

  lemma {:induction false} BucketsMirror(pts: seq<Point>, low: real, high: real)
    ensures MidXs(MirrorX(pts), low, high) == Negate(MidXs(pts, low, high))
    ensures ExtremeXs(MirrorX(pts), low, high) == Negate(ExtremeXs(pts, low, high))
  {
    if pts != [] {
      var m := MirrorX(pts);
      assert m[0] == Point(-pts[0].x, pts[0].y);
      assert m[1..] == MirrorX(pts[1..]);
      BucketsMirror(pts[1..], low, high);
      var mid, ext := MidXs(pts[1..], low, high), ExtremeXs(pts[1..], low, high);
      if IsMid(pts[0].y, low, high) {
        assert MidXs(m, low, high) == Negate(MidXs(pts, low, high)) by {
          NegateCons(pts[0].x, mid);
          assert MidXs(pts, low, high) == [pts[0].x] + mid;
        }
        assert ExtremeXs(m, low, high) == Negate(ExtremeXs(pts, low, high)) by {
          assert ExtremeXs(pts, low, high) == ext;
        }
      } else {
        assert ExtremeXs(m, low, high) == Negate(ExtremeXs(pts, low, high)) by {
          NegateCons(pts[0].x, ext);
          assert ExtremeXs(pts, low, high) == [pts[0].x] + ext;
        }
        assert MidXs(m, low, high) == Negate(MidXs(pts, low, high)) by {
          assert MidXs(pts, low, high) == mid;
        }
      }
    }
  }

  lemma {:induction false} BucketsTranslate(pts: seq<Point>, low: real, high: real, dx: real, dy: real)
    ensures MidXs(Translate(pts, dx, dy), low + dy, high + dy) == Shift(MidXs(pts, low, high), dx)
    ensures ExtremeXs(Translate(pts, dx, dy), low + dy, high + dy) == Shift(ExtremeXs(pts, low, high), dx)
  {
    if pts != [] {
      var t := Translate(pts, dx, dy);
      assert t[0] == Point(pts[0].x + dx, pts[0].y + dy);
      assert t[1..] == Translate(pts[1..], dx, dy);
      BucketsTranslate(pts[1..], low, high, dx, dy);
      var mid, ext := MidXs(pts[1..], low, high), ExtremeXs(pts[1..], low, high);
      if IsMid(pts[0].y, low, high) {
        ShiftCons(pts[0].x, mid, dx);
        assert MidXs(pts, low, high) == [pts[0].x] + mid;
        assert MidXs(t, low + dy, high + dy) == [pts[0].x + dx] + Shift(mid, dx);
        assert ExtremeXs(pts, low, high) == ext;
        assert ExtremeXs(t, low + dy, high + dy) == Shift(ext, dx);
      } else {
        ShiftCons(pts[0].x, ext, dx);
        assert ExtremeXs(pts, low, high) == [pts[0].x] + ext;
        assert ExtremeXs(t, low + dy, high + dy) == [pts[0].x + dx] + Shift(ext, dx);
        assert MidXs(pts, low, high) == mid;
        assert MidXs(t, low + dy, high + dy) == Shift(mid, dx);
      }
    }
  }

  lemma {:induction false} BucketsFlip(pts: seq<Point>, low: real, high: real)
    ensures MidXs(FlipY(pts), -high, -low) == MidXs(pts, low, high)
    ensures ExtremeXs(FlipY(pts), -high, -low) == ExtremeXs(pts, low, high)
  {
    if pts != [] {
      var f := FlipY(pts);
      assert f[0] == Point(pts[0].x, -pts[0].y);
      assert f[1..] == FlipY(pts[1..]);
      BucketsFlip(pts[1..], low, high);
    }
  }

  lemma MirrorBand(pts: seq<Point>)
    requires |pts| > 0
    ensures MidLow(MirrorX(pts)) == MidLow(pts) && MidHigh(MirrorX(pts)) == MidHigh(pts)
  {
    var m := MirrorX(pts);
    assert forall i :: 0 <= i < |pts| ==> m[i].y == pts[i].y;
    var i :| 0 <= i < |pts| && pts[i].y == MinY(pts);
    var j :| 0 <= j < |pts| && pts[j].y == MaxY(pts);
    assert m[i].y == MinY(pts) && m[j].y == MaxY(pts);
    MinYIs(m, MinY(pts));
    MaxYIs(m, MaxY(pts));
  }

  lemma TranslateBand(pts: seq<Point>, dx: real, dy: real)
    requires |pts| > 0
    ensures MidLow(Translate(pts, dx, dy)) == MidLow(pts) + dy
    ensures MidHigh(Translate(pts, dx, dy)) == MidHigh(pts) + dy
  {
    var t := Translate(pts, dx, dy);
    assert forall i :: 0 <= i < |pts| ==> t[i].y == pts[i].y + dy;
    var i :| 0 <= i < |pts| && pts[i].y == MinY(pts);
    var j :| 0 <= j < |pts| && pts[j].y == MaxY(pts);
    assert t[i].y == MinY(pts) + dy && t[j].y == MaxY(pts) + dy;
    MinYIs(t, MinY(pts) + dy);
    MaxYIs(t, MaxY(pts) + dy);
  }

  lemma FlipBand(pts: seq<Point>)
    requires |pts| > 0
    ensures MidLow(FlipY(pts)) == -MidHigh(pts) && MidHigh(FlipY(pts)) == -MidLow(pts)
  {
    var f := FlipY(pts);
    assert forall i :: 0 <= i < |pts| ==> f[i].y == -pts[i].y;
    var i :| 0 <= i < |pts| && pts[i].y == MinY(pts);
    var j :| 0 <= j < |pts| && pts[j].y == MaxY(pts);
    assert f[j].y == -MaxY(pts) && f[i].y == -MinY(pts);
    MinYIs(f, -MaxY(pts));
    MaxYIs(f, -MinY(pts));
  }

  /** A left caret mirrored is a right caret, and the other way round. */
  lemma MirrorReverses(pts: seq<Point>)
    ensures Direction(MirrorX(pts)) == -Direction(pts)
  {
    if |pts| > 0 {
      var m := MirrorX(pts);
      MirrorBand(pts);
      BucketsMirror(pts, MidLow(pts), MidHigh(pts));
      assert MidBucket(m) == Negate(MidBucket(pts));
      assert ExtremeBucket(m) == Negate(ExtremeBucket(pts));
      CompareMeansNegate(MidBucket(pts), ExtremeBucket(pts));
    }
  }

  /** Where the outline sits does not change the verdict. */
  lemma TranslateKeeps(pts: seq<Point>, dx: real, dy: real)
    ensures Direction(Translate(pts, dx, dy)) == Direction(pts)
  {
    if |pts| > 0 {
      var t := Translate(pts, dx, dy);
      TranslateBand(pts, dx, dy);
      BucketsTranslate(pts, MidLow(pts), MidHigh(pts), dx, dy);
      assert MidBucket(t) == Shift(MidBucket(pts), dx);
      assert ExtremeBucket(t) == Shift(ExtremeBucket(pts), dx);
      CompareMeansShift(MidBucket(pts), ExtremeBucket(pts), dx);
    }
  }

  /** The band is symmetric about the middle of the y range, so a caret
      turned upside down points the same way. */
  lemma FlipKeeps(pts: seq<Point>)
    ensures Direction(FlipY(pts)) == Direction(pts)
  {
    if |pts| > 0 {
      var f := FlipY(pts);
      FlipBand(pts);
      BucketsFlip(pts, MidLow(pts), MidHigh(pts));
      assert MidBucket(f) == MidBucket(pts);
      assert ExtremeBucket(f) == ExtremeBucket(pts);
    }
  }
}
