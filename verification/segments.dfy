/**
 `extract_interesting_segments`: `count` evenly spaced start times across a
 clip, every window the same length, the windows that run past the end of
 the clip dropped, and the rest shuffled. Both revisions share this code.
 */
module Segments {
  import opened Shuffling

  /** A probed duration: ffprobe reports a non-negative number of seconds. */
  type Seconds = r: real | r >= 0.0

  /** A `(start_time, segment_duration)` pair, in seconds. */
  datatype Window = Window(start: real, length: real)

  /** Two windows share no instant of positive length. */
  predicate Disjoint(a: Window, b: Window) {
    a.start + a.length <= b.start || b.start + b.length <= a.start
  }

  /** `max(min_segment_duration, duration / (num_segments * 2))`. */
  function WindowLength(duration: Seconds, count: nat, minLength: real): real
    requires count > 0
  {
    var half := duration / (2 * count) as real;
    if minLength >= half then minLength else half
  }

  /** The distance between two consecutive start times, `duration / num_segments`. */
  function Step(duration: Seconds, count: nat): real
    requires count > 0
  {
    duration / count as real
  }

  /**
   `possible_start_times`, each paired with the common window length: the
   first window starts at 0, each next one a step later, all of them of
   the common length, which is never below the minimum; for a clip of
   positive length every start lies inside the clip.
   */
  function EvenWindows(duration: Seconds, count: nat, minLength: real): (ws: seq<Window>)
    requires count > 0
    ensures |ws| == count
    ensures ws[0].start == 0.0
    ensures forall i :: 0 <= i < count - 1 ==> ws[i + 1].start - ws[i].start == Step(duration, count)
    ensures forall i :: 0 <= i < count ==> 0.0 <= ws[i].start && minLength <= ws[i].length == WindowLength(duration, count, minLength)
    ensures duration > 0.0 ==> forall i :: 0 <= i < count ==> ws[i].start < duration
  {
    var step := Step(duration, count);
    var ws := seq(count, i requires 0 <= i < count => Window(i as real * step, WindowLength(duration, count, minLength)));
    forall i | 0 <= i < count
      ensures 0.0 <= ws[i].start && (duration > 0.0 ==> ws[i].start < duration)
      ensures minLength <= ws[i].length == WindowLength(duration, count, minLength)
    {
      assert ws[i] == Window(i as real * step, WindowLength(duration, count, minLength));
      NonNegativeProduct(i as real, step);
      if duration > 0.0 {
        StartBeforeEnd(i, count, duration);
      }
    }
    forall i | 0 <= i < count - 1
      ensures ws[i + 1].start - ws[i].start == step
    {
      assert (i + 1) as real * step == i as real * step + step;
    }
    ws
  }

  /** Unfolds one window of `EvenWindows`. */
  lemma EvenWindowAt(duration: Seconds, count: nat, minLength: real, i: nat)
    requires i < count
    ensures EvenWindows(duration, count, minLength)[i] == Window(i as real * Step(duration, count), WindowLength(duration, count, minLength))
  {
  }

  /** Start `i` of `count` lies before the end of a clip of positive length. */
  lemma StartBeforeEnd(i: nat, count: nat, duration: real)
    requires i < count && duration > 0.0
    ensures i as real * (duration / count as real) < duration
  {
    var step := duration / count as real;
    assert step * count as real == duration;
    assert duration - i as real * step == (count - i) as real * step;
    assert (count - i) as real * step > 0.0;
  }

  /** The windows that end no later than `duration`, in their original order. */
  function Fitting(ws: seq<Window>, duration: real): (r: seq<Window>)
    ensures |r| <= |ws|
    ensures forall w :: w in r <==> w in ws && w.start + w.length <= duration
  {
    if |ws| == 0 then []
    else if ws[0].start + ws[0].length <= duration then [ws[0]] + Fitting(ws[1..], duration)
    else Fitting(ws[1..], duration)
  }

  lemma {:induction false} FittingAppend(a: seq<Window>, b: seq<Window>, duration: real)
    ensures Fitting(a + b, duration) == Fitting(a, duration) + Fitting(b, duration)
    decreases |a|
  {
    if a == [] {
      assert a + b == b;
    } else {
      assert (a + b)[1..] == a[1..] + b;
      FittingAppend(a[1..], b, duration);
    }
  }

  /**
   `Fitting` is the order-preserving filter: around any window, the kept
   windows before it, then the window itself exactly when it ends within
   the clip, then the kept windows after it.
   */
  lemma FittingIsFilter(a: seq<Window>, w: Window, b: seq<Window>, duration: real)
    ensures Fitting(a + [w] + b, duration) ==
      Fitting(a, duration) + (if w.start + w.length <= duration then [w] else []) + Fitting(b, duration)
  {
    FittingAppend(a + [w], b, duration);
    FittingAppend(a, [w], duration);
    assert [w][1..] == [];
  }

  /** The windows before shuffling. */
  function Candidates(duration: Seconds, count: nat, minLength: real): seq<Window>
    requires count > 0
  {
    Fitting(EvenWindows(duration, count, minLength), duration)
  }

  /**
   `extract_interesting_segments(video, count, minLength)` for a clip of
   `duration` seconds, `draw` standing for the generator's output. The
   result is a permutation of the in-bounds evenly spaced windows, so at
   most `count` of them, all of the common length and inside the clip; when
   half a step is at least the minimum length they do not overlap.
   */
  function ExtractInterestingSegments(duration: Seconds, count: nat, minLength: real, draw: nat -> nat): (r: seq<Window>)
    requires count > 0
    ensures |r| <= count
    ensures multiset(r) == multiset(Candidates(duration, count, minLength))
    ensures forall w :: w in r ==>
      && 0.0 <= w.start
      && w.start + w.length <= duration
      && w.length == WindowLength(duration, count, minLength)
    ensures duration / (2 * count) as real >= minLength ==> Pairwise(r, Disjoint)
  {
    ShuffledCandidates(duration, count, minLength, draw);
    Shuffle(Candidates(duration, count, minLength), draw)
  }

  lemma ShuffledCandidates(duration: Seconds, count: nat, minLength: real, draw: nat -> nat)
    requires count > 0
    ensures var r := Shuffle(Candidates(duration, count, minLength), draw);
      && (forall w :: w in r ==>
        && 0.0 <= w.start
        && w.start + w.length <= duration
        && w.length == WindowLength(duration, count, minLength))
      && (duration / (2 * count) as real >= minLength ==> Pairwise(r, Disjoint))
  {
    var c := Candidates(duration, count, minLength);
    var r := Shuffle(c, draw);
    forall w | w in r
      ensures w in c
    {
      assert w in multiset(r);
    }
    EvenWindowsInside(duration, count, minLength);
    if duration / (2 * count) as real >= minLength {
      EvenWindowsDisjoint(duration, count, minLength);
      FittingKeepsPairwise(EvenWindows(duration, count, minLength), duration);
      ShuffleKeepsPairwise(c, draw, Disjoint);
    }
  }

  /** Every evenly spaced start time is non-negative. */
  lemma EvenWindowsInside(duration: Seconds, count: nat, minLength: real)
    requires count > 0
    ensures forall w :: w in EvenWindows(duration, count, minLength) ==>
      0.0 <= w.start && w.length == WindowLength(duration, count, minLength)
  {
    var ws := EvenWindows(duration, count, minLength);
    forall w | w in ws
      ensures 0.0 <= w.start
    {
      var i :| 0 <= i < |ws| && ws[i] == w;
      NonNegativeProduct(i as real, Step(duration, count));
    }
  }

  lemma NonNegativeProduct(a: real, b: real)
    requires a >= 0.0 && b >= 0.0
    ensures a * b >= 0.0
  {
  }

  /** Start times one or more steps apart are at least one step apart. */
  lemma StepsApart(i: int, j: int, step: real, len: real)
    requires 0 <= i < j && 0.0 <= len <= step
    ensures i as real * step + len <= j as real * step
  {
    assert j as real * step - i as real * step == (j - i) as real * step;
    assert (j - i) as real * step == step + (j - i - 1) as real * step;
    NonNegativeProduct((j - i - 1) as real, step);
  }

  /** When a window is at most half a step long, evenly spaced windows do not overlap. */
  lemma EvenWindowsDisjoint(duration: Seconds, count: nat, minLength: real)
    requires count > 0
    requires duration / (2 * count) as real >= minLength
    ensures Pairwise(EvenWindows(duration, count, minLength), Disjoint)
  {
    var ws := EvenWindows(duration, count, minLength);
    var step := Step(duration, count);
    var len := WindowLength(duration, count, minLength);
    assert len == duration / (2 * count) as real;
    assert len <= step by {
      var c := count as real;
      assert (2 * count) as real == 2.0 * c;
      assert len * (2.0 * c) == duration;
      assert step * c == duration;
      assert (2.0 * len) * c == step * c;
    }
    forall i, j | 0 <= i < |ws| && 0 <= j < |ws| && i != j
      ensures Disjoint(ws[i], ws[j])
    {
      EvenWindowAt(duration, count, minLength, i);
      EvenWindowAt(duration, count, minLength, j);
      if i < j {
        StepsApart(i, j, step, len);
      } else {
        StepsApart(j, i, step, len);
      }
    }
  }

  /** Dropping windows keeps every pair of the remaining ones disjoint. */
  lemma {:induction false} FittingKeepsPairwise(ws: seq<Window>, duration: real)
    requires Pairwise(ws, Disjoint)
    ensures Pairwise(Fitting(ws, duration), Disjoint)
  {
    if |ws| > 0 {
      var rest := ws[1..];
      assert Pairwise(rest, Disjoint) by {
        forall i, j | 0 <= i < |rest| && 0 <= j < |rest| && i != j
          ensures Disjoint(rest[i], rest[j])
        {
          assert rest[i] == ws[i + 1] && rest[j] == ws[j + 1];
        }
      }
      FittingKeepsPairwise(rest, duration);
      if ws[0].start + ws[0].length <= duration {
        var tail := Fitting(rest, duration);
        var r := [ws[0]] + tail;
        forall k | 0 <= k < |tail|
          ensures Disjoint(ws[0], tail[k]) && Disjoint(tail[k], ws[0])
        {
          assert tail[k] in rest;
          var m :| 0 <= m < |rest| && rest[m] == tail[k];
          assert ws[m + 1] == tail[k];
        }
        forall i, j | 0 <= i < |r| && 0 <= j < |r| && i != j
          ensures Disjoint(r[i], r[j])
        {
          if i > 0 && j > 0 {
            assert r[i] == tail[i - 1] && r[j] == tail[j - 1];
          } else if i == 0 {
            assert r[j] == tail[j - 1];
          } else {
            assert r[i] == tail[i - 1];
          }
        }
      }
    }
  }
}
