/**
 `create_text_overlay_filter` (identical in both revisions): the
 `@Suite.E.Studios` caption shown three to five times, evenly spaced over
 the montage, three seconds each, fading in over the first half second and
 out over the last. Times are exact reals; the decimal text ffmpeg receives
 for each number is produced by a rendering function given as a parameter.
 */
module TextOverlay {
  import opened Strings

  /** `display_duration`. */
  const DisplayLength: real := 3.0

  /** The fade-in and fade-out time of the alpha expression. */
  const FadeLength: real := 0.5

  /**
   `max(3, min(5, int(video_duration / 20)))` for the integer `--duration`:
   one caption per 20 seconds, between three and five. For negative input
   Python truncates and Dafny floors; both are below three, so the results
   agree.
   */
  function DisplayCount(duration: int): (n: nat)
    ensures 3 <= n <= 5
    ensures duration < 60 ==> n == 3
    ensures duration >= 100 ==> n == 5
    ensures 60 <= duration < 100 ==> 20 * n <= duration < 20 * (n + 1)
  {
    var perTwenty := duration / 20;
    if perTwenty < 3 then 3 else if perTwenty > 5 then 5 else perTwenty
  }

  /** One caption: shown while `between(t, start, end)` holds. */
  datatype Cue = Cue(start: real, end: real)

  /** `interval`: the gap between consecutive captions. */
  function Interval(duration: int): real
  {
    duration as real / (DisplayCount(duration) + 1) as real
  }

  /**
   The caption times: the i-th caption starts after i + 1 intervals and
   lasts three seconds. For a positive duration the starts increase and all
   fall strictly inside the montage.
   */
  function Schedule(duration: int): (cues: seq<Cue>)
    ensures |cues| == DisplayCount(duration)
    ensures forall i :: 0 <= i < |cues| ==> cues[i].start == (i + 1) as real * Interval(duration)
    ensures forall i :: 0 <= i < |cues| ==> cues[i].end - cues[i].start == DisplayLength
    ensures forall i :: 0 <= i < |cues| - 1 ==> cues[i + 1].start - cues[i].start == Interval(duration)
    ensures duration > 0 ==> forall i :: 0 <= i < |cues| ==> 0.0 < cues[i].start < duration as real
    ensures duration > 0 ==> forall i, j :: 0 <= i < j < |cues| ==> cues[i].start < cues[j].start
  {
    var n := DisplayCount(duration);
    var cues := seq(n, i requires 0 <= i < n => Cue((i + 1) as real * Interval(duration), (i + 1) as real * Interval(duration) + DisplayLength));
    ScheduleFacts(duration, cues);
    cues
  }

  lemma ScheduleFacts(duration: int, cues: seq<Cue>)
    requires |cues| == DisplayCount(duration)
    requires forall i :: 0 <= i < |cues| ==> cues[i] == Cue((i + 1) as real * Interval(duration), (i + 1) as real * Interval(duration) + DisplayLength)
    ensures forall i :: 0 <= i < |cues| - 1 ==> cues[i + 1].start - cues[i].start == Interval(duration)
    ensures duration > 0 ==> forall i :: 0 <= i < |cues| ==> 0.0 < cues[i].start < duration as real
    ensures duration > 0 ==> forall i, j :: 0 <= i < j < |cues| ==> cues[i].start < cues[j].start
  {
    var step := Interval(duration);
    forall i | 0 <= i < |cues| - 1
      ensures cues[i + 1].start - cues[i].start == step
    {
      assert (i + 2) as real * step == (i + 1) as real * step + step;
    }
    if duration > 0 {
      SchedulePositive(duration, cues);
    }
  }

  lemma SchedulePositive(duration: int, cues: seq<Cue>)
    requires duration > 0
    requires |cues| == DisplayCount(duration)
    requires forall i :: 0 <= i < |cues| ==> cues[i].start == (i + 1) as real * Interval(duration)
    ensures forall i :: 0 <= i < |cues| ==> 0.0 < cues[i].start < duration as real
    ensures forall i, j :: 0 <= i < j < |cues| ==> cues[i].start < cues[j].start
  {
    var n := |cues|;
    var step := Interval(duration);
    var d := duration as real;
    IntervalFills(duration);
    forall i | 0 <= i < n
      ensures 0.0 < cues[i].start < d
    {
      StartInside(i, n, step, d);
    }
    forall i, j | 0 <= i < j < n
      ensures cues[i].start < cues[j].start
    {
      Increasing(i, j, step);
    }
  }

  /** The captions' interval times one more than their count is the whole duration. */
  lemma IntervalFills(duration: int)
    requires duration > 0
    ensures Interval(duration) > 0.0
    ensures Interval(duration) * (DisplayCount(duration) + 1) as real == duration as real
  {
  }

  lemma StartInside(i: nat, n: nat, step: real, d: real)
    requires i < n && step > 0.0 && step * (n + 1) as real == d
    ensures 0.0 < (i + 1) as real * step < d
  {
    assert d - (i + 1) as real * step == (n - i) as real * step;
    PositiveProduct((n - i) as real, step);
    PositiveProduct((i + 1) as real, step);
  }

  lemma Increasing(i: nat, j: nat, step: real)
    requires i < j && step > 0.0
    ensures (i + 1) as real * step < (j + 1) as real * step
  {
    assert (j + 1) as real * step - (i + 1) as real * step == (j - i) as real * step;
    PositiveProduct((j - i) as real, step);
  }

  lemma PositiveProduct(a: real, b: real)
    requires a > 0.0 && b > 0.0
    ensures a * b > 0.0
  {
  }

  /** ffmpeg's `between(t, start, end)`: the caption is drawn at time `t`. */
  predicate Shown(c: Cue, t: real) {
    c.start <= t <= c.end
  }

  /**
   The alpha expression
   `if(lt(t,start+0.5),(t-start)*2,if(gt(t,end-0.5),1-(t-(end-0.5))*2,1))`.
   */
  function Alpha(c: Cue, t: real): real
  {
    if t < c.start + FadeLength then (t - c.start) * 2.0
    else if t > c.end - FadeLength then 1.0 - (t - (c.end - FadeLength)) * 2.0
    else 1.0
  }

  /**
   Over a three-second caption the opacity rises from 0 to 1 in the first
   half second, holds at 1, and falls back to 0 at the end; it never leaves
   [0, 1] while the caption is shown.
   */
  lemma AlphaFade(c: Cue)
    requires c.end - c.start == DisplayLength
    ensures Alpha(c, c.start) == 0.0
    ensures Alpha(c, c.start + FadeLength) == 1.0
    ensures Alpha(c, c.end - FadeLength) == 1.0
    ensures Alpha(c, c.end) == 0.0
    ensures forall t :: Shown(c, t) ==> 0.0 <= Alpha(c, t) <= 1.0
    ensures forall t :: c.start + FadeLength <= t <= c.end - FadeLength ==> Alpha(c, t) == 1.0
  {
  }

  /** Every scheduled caption fades as `AlphaFade` describes. */
  lemma ScheduleFades(duration: int, i: nat)
    requires i < DisplayCount(duration)
    ensures var c := Schedule(duration)[i];
      Alpha(c, c.start) == 0.0 && Alpha(c, c.end) == 0.0 &&
      forall t :: Shown(c, t) ==> 0.0 <= Alpha(c, t) <= 1.0
  {
    AlphaFade(Schedule(duration)[i]);
  }

  /** The fixed head of every `drawtext` filter: the text, its style and its placement. */
  const DrawTextHead: string :=
    "drawtext=text='@Suite" + ".E.Studios':" + "fontcolor=white:" + "fontsize=36:"
    + "borderw=2:" + "bordercolor=black:" + "x=(w-text_w)/2:" + "y=h*0.85:"

  /**
   One `drawtext` filter; `num` is how Python writes a float, which this
   model does not fix.
   */
  function DrawText(c: Cue, num: real -> string): string
  {
    DrawTextHead + EnableClause(c, num) + FadeInClause(c, num) + FadeOutClause(c, num)
  }

  /** `enable='between(t,start,end)':`. */
  function EnableClause(c: Cue, num: real -> string): string
  {
    "enable='between(t," + num(c.start) + "," + num(c.end) + ")':"
  }

  /** The rising half of the alpha expression, `alpha='if(lt(t,start+0.5),(t-start)*2,`. */
  function FadeInClause(c: Cue, num: real -> string): string
  {
    "alpha='if(lt(t," + num(c.start + FadeLength) + "),(t-" + num(c.start) + ")*2,"
  }

  /** The falling half, `if(gt(t,end-0.5),1-(t-(end-0.5))*2,1))'`. */
  function FadeOutClause(c: Cue, num: real -> string): string
  {
    "if(gt(t," + num(c.end - FadeLength) + "),1-(t-" + num(c.end - FadeLength) + ")*2,1))'"
  }

  function DrawTexts(cues: seq<Cue>, num: real -> string): (parts: seq<string>)
    ensures |parts| == |cues|
  {
    seq(|cues|, i requires 0 <= i < |cues| => DrawText(cues[i], num))
  }

  /** The filter chain: the captions' `drawtext` filters joined by commas. */
  function TextOverlayFilter(duration: int, num: real -> string): string
  {
    Join(DrawTexts(Schedule(duration), num), ',')
  }

  /**
   The caption filter holds no `;` (the filter-graph separator) as long as
   the printed numbers hold none, which Python's float text never does.
   */
  lemma OverlayHasNoSemicolon(duration: int, num: real -> string)
    requires forall x :: ';' !in num(x)
    ensures ';' !in TextOverlayFilter(duration, num)
  {
    var cues := Schedule(duration);
    var parts := DrawTexts(cues, num);
    forall k | 0 <= k < |parts|
      ensures ';' !in parts[k]
    {
      DrawTextHasNoSemicolon(cues[k], num);
    }
    JoinAvoids(parts, ',', ';');
  }

  lemma DrawTextHasNoSemicolon(c: Cue, num: real -> string)
    requires forall x :: ';' !in num(x)
    ensures ';' !in DrawText(c, num)
  {
    HeadHasNoSemicolon();
    ClausesHaveNoSemicolon(c, num);
  }

  lemma ClausesHaveNoSemicolon(c: Cue, num: real -> string)
    requires forall x :: ';' !in num(x)
    ensures ';' !in EnableClause(c, num) && ';' !in FadeInClause(c, num) && ';' !in FadeOutClause(c, num)
  {
    assert ';' !in num(c.start) && ';' !in num(c.end);
    assert ';' !in num(c.start + FadeLength) && ';' !in num(c.end - FadeLength);
    assert ';' !in "enable='between(t," && ';' !in ")':" && ';' !in ",";
    assert ';' !in "alpha='if(lt(t," && ';' !in "),(t-" && ';' !in ")*2,";
    assert ';' !in "if(gt(t," && ';' !in "),1-(t-" && ';' !in ")*2,1))'";
  }

  lemma HeadHasNoSemicolon()
    ensures ';' !in DrawTextHead
  {
    assert ';' !in "drawtext=text='@Suite" && ';' !in ".E.Studios':";
    assert ';' !in "fontcolor=white:" && ';' !in "fontsize=36:";
    assert ';' !in "borderw=2:" && ';' !in "bordercolor=black:";
    assert ';' !in "x=(w-text_w)/2:" && ';' !in "y=h*0.85:";
  }

}
