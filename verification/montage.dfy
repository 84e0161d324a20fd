/**
 The planning half of `create_video_montage`: how many segments each clip
 offers, how many the montage needs, the shuffled and capped selection,
 and the per-segment extraction jobs with their temporary file names. Both
 revisions choose the segments identically; they differ in the reframe
 filter each extraction applies and in which extracted files they keep.
 */
module Montage {
  import opened Wrappers
  import opened Shuffling
  import opened Segments
  import opened Aspects
  import opened Reframe
  import opened Strings
  import opened Paths
  import opened ConcatList

  /** A probed input clip. */
  datatype Clip = Clip(path: string, duration: Seconds, frame: Dimensions)

  /** One entry of `segments_to_use`: `(video_path, start_time, segment_duration)`. */
  datatype Pick = Pick(clip: Clip, window: Window)

  /** The window lies inside its clip. */
  predicate Fits(p: Pick) {
    0.0 <= p.window.start && p.window.start + p.window.length <= p.clip.duration
  }

  /** `min_segment_duration`'s default, the value the montage relies on. */
  const MinSegmentLength: real := 2.0

  /** `avg_segment_duration`. */
  const AverageSegmentLength: int := 4

  /**
   `max(3, int((duration / 60) * 5))`: five windows per minute of footage,
   at least three. The duration is non-negative, so `int` is the floor.
   */
  function SegmentsPerClip(duration: Seconds): (n: nat)
    ensures n >= 3
    ensures n > 3 ==> n as real <= duration / 12.0 < (n + 1) as real
    ensures n == 3 ==> duration / 12.0 < 4.0
  {
    var perMinute := ((duration / 60.0) * 5.0).Floor;
    if perMinute > 3 then perMinute else 3
  }

  /** A longer clip never offers fewer windows. */
  lemma SegmentsPerClipMonotone(d1: Seconds, d2: Seconds)
    requires d1 <= d2
    ensures SegmentsPerClip(d1) <= SegmentsPerClip(d2)
  {
  }

  /**
   `max(3, int(output_duration / avg_segment_duration))` for the integer
   `--duration`: a quarter of the requested seconds, rounded down, at least
   three. For a negative request Python truncates and Dafny floors, but both
   give a value below three, so the result agrees.
   */
  function SegmentsNeeded(outputDuration: int): (n: nat)
    ensures n >= 3
    ensures outputDuration >= 16 ==> AverageSegmentLength * n <= outputDuration < AverageSegmentLength * (n + 1)
    ensures outputDuration < 16 ==> n == 3
  {
    var quarter := outputDuration / AverageSegmentLength;
    if quarter > 3 then quarter else 3
  }

  /** The windows `extract_interesting_segments` may return for a clip, before their shuffle. */
  function ClipCandidates(c: Clip): seq<Window>
  {
    Candidates(c.duration, SegmentsPerClip(c.duration), MinSegmentLength)
  }

  /** The windows `ws`, each tagged with clip `c`, in order. */
  function Tag(c: Clip, ws: seq<Window>): seq<Pick>
  {
    seq(|ws|, i requires 0 <= i < |ws| => Pick(c, ws[i]))
  }

  /** A pick occurs in a tagged sequence as often as its window does, provided it names the clip. */
  lemma {:induction false} TagCount(c: Clip, ws: seq<Window>, p: Pick)
    ensures multiset(Tag(c, ws))[p] == if p.clip == c then multiset(ws)[p.window] else 0
    decreases |ws|
  {
    if ws != [] {
      var init := ws[..|ws| - 1];
      TagCount(c, init, p);
      assert ws == init + [ws[|ws| - 1]];
      assert Tag(c, ws) == Tag(c, init) + [Pick(c, ws[|ws| - 1])];
    }
  }

  /** Tagging two permutations of the same windows gives permutations of the same picks. */
  lemma TagPermutes(c: Clip, ws: seq<Window>, vs: seq<Window>)
    requires multiset(ws) == multiset(vs)
    ensures multiset(Tag(c, ws)) == multiset(Tag(c, vs))
  {
    forall p: Pick
      ensures multiset(Tag(c, ws))[p] == multiset(Tag(c, vs))[p]
    {
      TagCount(c, ws, p);
      TagCount(c, vs, p);
    }
  }

  /**
   The picks one clip contributes: each of its fitting evenly spaced
   windows exactly once, in shuffled order, tagged with the clip.
   */
  function ClipPicks(c: Clip, draw: nat -> nat): (ps: seq<Pick>)
    ensures |ps| == |ClipCandidates(c)| <= SegmentsPerClip(c.duration)
    ensures multiset(ps) == multiset(Tag(c, ClipCandidates(c)))
    ensures forall p :: p in ps ==> p.clip == c && Fits(p)
  {
    var ws := ExtractInterestingSegments(c.duration, SegmentsPerClip(c.duration), MinSegmentLength, draw);
    TagPermutes(c, ws, ClipCandidates(c));
    Tag(c, ws)
  }

  /**
   Reference for the unshuffled pool: every clip's fitting windows tagged
   with the clip, clip after clip.
   */
  function AllCandidates(clips: seq<Clip>): seq<Pick>
  {
    if clips == [] then [] else Tag(clips[0], ClipCandidates(clips[0])) + AllCandidates(clips[1..])
  }

  /**
   `segments_to_use` before its shuffle: the picks of `clips[k..]` in clip
   order, the k-th clip's windows shuffled with `draws(k)`.
   */
  function PoolFrom(clips: seq<Clip>, k: nat, draws: nat -> (nat -> nat)): (pool: seq<Pick>)
    requires k <= |clips|
    ensures multiset(pool) == multiset(AllCandidates(clips[k..]))
    ensures forall p :: p in pool ==> p.clip in clips[k..] && Fits(p)
    decreases |clips| - k
  {
    if k == |clips| then []
    else
      var rest := PoolFrom(clips, k + 1, draws);
      assert clips[k..][1..] == clips[k + 1..];
      assert forall p :: p in rest ==> p.clip in clips[k..] by {
        forall p | p in rest
          ensures p.clip in clips[k..]
        {
          var m :| 0 <= m < |clips[k + 1..]| && clips[k + 1..][m] == p.clip;
          assert clips[k..][m + 1] == p.clip;
        }
      }
      ClipPicks(clips[k], draws(k)) + rest
  }

  /**
   The whole pool: a permutation of every clip's fitting windows, each
   tagged with its clip, so exactly as many picks as the clips offer.
   */
  function Pool(clips: seq<Clip>, draws: nat -> (nat -> nat)): (pool: seq<Pick>)
    ensures multiset(pool) == multiset(AllCandidates(clips))
    ensures |pool| == |AllCandidates(clips)|
    ensures forall p :: p in pool ==> p.clip in clips && Fits(p)
  {
    assert clips[0..] == clips;
    var pool := PoolFrom(clips, 0, draws);
    assert |multiset(pool)| == |multiset(AllCandidates(clips))|;
    pool
  }

  /**
   The selection `create_video_montage` extracts: the pool shuffled with
   `poolDraw` and cut to `SegmentsNeeded(outputDuration)`. It is as long as
   the clips' windows allow, draws no pick more often than the clips offer
   it, and every pick lies inside the clip it came from.
   */
  function PlanMontageSegments(clips: seq<Clip>, outputDuration: int, draws: nat -> (nat -> nat), poolDraw: nat -> nat): (chosen: seq<Pick>)
    ensures |chosen| == Min(|AllCandidates(clips)|, SegmentsNeeded(outputDuration))
    ensures multiset(chosen) <= multiset(AllCandidates(clips))
    ensures forall p :: p in chosen ==> p.clip in clips && Fits(p)
  {
    var pool := Pool(clips, draws);
    var shuffled := Shuffle(pool, poolDraw);
    var needed := SegmentsNeeded(outputDuration);
    var chosen := if |shuffled| > needed then shuffled[..needed] else shuffled;
    assert chosen == shuffled[..|chosen|];
    PrefixWithin(shuffled, |chosen|);
    ShuffleSameElements(pool, poolDraw);
    assert forall p :: p in chosen ==> p in pool;
    chosen
  }

  /** A prefix holds nothing more often than the whole sequence, and only its elements. */
  lemma PrefixWithin<T>(s: seq<T>, n: nat)
    requires n <= |s|
    ensures multiset(s[..n]) <= multiset(s)
    ensures forall x :: x in s[..n] ==> x in s
  {
    assert s == s[..n] + s[n..];
    assert multiset(s) == multiset(s[..n]) + multiset(s[n..]);
  }

  function Min(a: nat, b: nat): nat {
    if a <= b then a else b
  }

  // ---------------------------------------------------------------------
  // Temporary segment files

  /** `f"segment_{i:03d}.mp4"`. */
  function SegmentFileName(i: nat): (name: string)
    ensures |name| >= 15 && '/' !in name
  {
    "segment_" + ZeroPad3(i) + ".mp4"
  }

  /** Reads the index back out of a segment file name. */
  function SegmentIndex(name: string): (r: Option<nat>)
    ensures r.Some? ==> |name| >= 13
  {
    if |name| >= 13 && name[..8] == "segment_" && name[|name| - 4..] == ".mp4" && AllDigits(name[8..|name| - 4])
    then Some(DecimalValue(name[8..|name| - 4]))
    else None
  }

  /** The index is recovered from the name, so no two segments share a file. */
  lemma SegmentIndexOfName(i: nat)
    ensures SegmentIndex(SegmentFileName(i)) == Some(i)
  {
    var name := SegmentFileName(i);
    var digits := ZeroPad3(i);
    assert name[..8] == "segment_";
    assert name[|name| - 4..] == ".mp4";
    assert name[8..|name| - 4] == digits;
  }

  lemma SegmentFileNamesDistinct(i: nat, j: nat)
    requires i != j
    ensures SegmentFileName(i) != SegmentFileName(j)
  {
    SegmentIndexOfName(i);
    SegmentIndexOfName(j);
  }

  /** `os.path.join(temp_dir, f"segment_{i:03d}.mp4")`. */
  function SegmentPath(tempDir: string, i: nat): string
  {
    JoinPath(tempDir, SegmentFileName(i))
  }

  /** The file name is the last component of the path it is stored under. */
  lemma SegmentPathBasename(p: string, i: nat)
    ensures Basename(SegmentPath(Dirname(p), i)) == SegmentFileName(i)
    ensures Dirname(SegmentPath(Dirname(p), i)) == Dirname(p)
  {
    JoinSplitsBack(p, SegmentFileName(i));
  }

  /** One ffmpeg extraction: `-i source -ss start -t length -vf filter output`. */
  datatype SegmentJob<F> = SegmentJob(source: string, start: real, length: real, filter: F, output: string)

  /**
   When the current revision's filter keeps its crop inside the scaled
   frame: always for the square format and for landscape sources, and for
   other sources exactly when they are no wider, relative to their height,
   than the target.
   */
  predicate FitsAsWritten(src: Dimensions, target: Dimensions) {
    target.width == target.height || src.width > src.height || src.width * target.height <= target.width * src.height
  }

  /** The as-written filter for one source, as far as the extraction depends on it. */
  lemma AsWrittenFilter(src: Dimensions, aspect: Aspect)
    requires PositiveFrame(src)
    ensures var sc := DetermineScalingFilter(src, aspect);
      && Centred(sc)
      && (WithinFrame(sc) <==> FitsAsWritten(src, Size(aspect)))
      && (WithinFrame(sc) <==> sc == PlanReframe(src, aspect))
      && (Size(aspect).width < Size(aspect).height ==> sc.cropWidth == Size(aspect).width && sc.cropHeight == Size(aspect).height)
  {
    var target := Size(aspect);
    if target.width == target.height {
      SquareTargetFits(src, target);
    } else if src.width > src.height {
      PortraitFromLandscape(src, target);
    } else {
      PortraitFromTallFitsIff(src, target);
    }
    AsWrittenAgreesWhenInside(src, target);
  }

  /**
   The extraction loop of the current revision: one command per chosen
   pick, in order, cutting the pick's window out of its clip into the i-th
   segment file through `determine_scaling_filter` of that clip. The crop is
   centred; for the portrait formats it is exactly the format's frame; and
   it lies inside the scaled frame exactly when `FitsAsWritten` holds.
   */
  function SegmentJobs(tempDir: string, chosen: seq<Pick>, aspect: Aspect): (jobs: seq<SegmentJob<ScaleCrop>>)
    requires forall p :: p in chosen ==> PositiveFrame(p.clip.frame)
    ensures |jobs| == |chosen|
    ensures forall i :: 0 <= i < |jobs| ==>
      && jobs[i].output == SegmentPath(tempDir, i)
      && jobs[i].source == chosen[i].clip.path
      && jobs[i].start == chosen[i].window.start
      && jobs[i].length == chosen[i].window.length
      && Centred(jobs[i].filter)
      && (WithinFrame(jobs[i].filter) <==> FitsAsWritten(chosen[i].clip.frame, Size(aspect)))
      && (Size(aspect).width < Size(aspect).height ==>
            jobs[i].filter.cropWidth == Size(aspect).width && jobs[i].filter.cropHeight == Size(aspect).height)
  {
    var jobs := seq(|chosen|, i requires 0 <= i < |chosen| =>
      SegmentJob(chosen[i].clip.path, chosen[i].window.start, chosen[i].window.length,
                 DetermineScalingFilter(chosen[i].clip.frame, aspect), SegmentPath(tempDir, i)));
    forall i | 0 <= i < |chosen|
      ensures var f := jobs[i].filter;
        && Centred(f)
        && (WithinFrame(f) <==> FitsAsWritten(chosen[i].clip.frame, Size(aspect)))
        && (Size(aspect).width < Size(aspect).height ==> f.cropWidth == Size(aspect).width && f.cropHeight == Size(aspect).height)
    {
      AsWrittenFilter(chosen[i].clip.frame, aspect);
    }
    jobs
  }

  /**
   The extraction loop with the corrected planner: the same commands, but
   every segment comes out at exactly the format's frame, cut from inside
   the scaled clip.
   */
  function FilledSegmentJobs(tempDir: string, chosen: seq<Pick>, aspect: Aspect): (jobs: seq<SegmentJob<ScaleCrop>>)
    requires forall p :: p in chosen ==> PositiveFrame(p.clip.frame)
    ensures |jobs| == |chosen|
    ensures forall i :: 0 <= i < |jobs| ==>
      && jobs[i].output == SegmentPath(tempDir, i)
      && jobs[i].source == chosen[i].clip.path
      && jobs[i].start == chosen[i].window.start
      && jobs[i].length == chosen[i].window.length
      && Centred(jobs[i].filter) && WithinFrame(jobs[i].filter)
      && jobs[i].filter.cropWidth == Size(aspect).width && jobs[i].filter.cropHeight == Size(aspect).height
  {
    seq(|chosen|, i requires 0 <= i < |chosen| =>
      SegmentJob(chosen[i].clip.path, chosen[i].window.start, chosen[i].window.length,
                 PlanReframe(chosen[i].clip.frame, aspect), SegmentPath(tempDir, i)))
  }

  /**
   The extraction as written and the corrected one issue the same
   commands exactly when every chosen clip's frame fits as written.
   */
  lemma SegmentJobsAgreeIff(tempDir: string, chosen: seq<Pick>, aspect: Aspect)
    requires forall p :: p in chosen ==> PositiveFrame(p.clip.frame)
    ensures SegmentJobs(tempDir, chosen, aspect) == FilledSegmentJobs(tempDir, chosen, aspect)
      <==> forall i :: 0 <= i < |chosen| ==> FitsAsWritten(chosen[i].clip.frame, Size(aspect))
  {
    var w, f := SegmentJobs(tempDir, chosen, aspect), FilledSegmentJobs(tempDir, chosen, aspect);
    forall i | 0 <= i < |chosen|
      ensures w[i] == f[i] <==> FitsAsWritten(chosen[i].clip.frame, Size(aspect))
    {
      AsWrittenFilter(chosen[i].clip.frame, aspect);
      assert w[i].filter == DetermineScalingFilter(chosen[i].clip.frame, aspect);
      assert f[i].filter == PlanReframe(chosen[i].clip.frame, aspect);
    }
    if forall i :: 0 <= i < |chosen| ==> FitsAsWritten(chosen[i].clip.frame, Size(aspect)) {
      assert w == f;
    }
  }

  /**
   The extraction loop of the older revision: the same commands with the
   template filter of `ScalingForV1`, whose crop is always the format's
   frame (the table has no landscape format).
   */
  function SegmentJobsV1(tempDir: string, chosen: seq<Pick>, aspect: Aspect): (jobs: seq<SegmentJob<TemplateFilter>>)
    requires forall p :: p in chosen ==> p.clip.frame.height > 0
    ensures |jobs| == |chosen|
    ensures forall i :: 0 <= i < |jobs| ==>
      && jobs[i].output == SegmentPath(tempDir, i)
      && jobs[i].source == chosen[i].clip.path
      && jobs[i].start == chosen[i].window.start
      && jobs[i].length == chosen[i].window.length
      && jobs[i].filter.cropWidth == Size(aspect).width && jobs[i].filter.cropHeight == Size(aspect).height
  {
    seq(|chosen|, i requires 0 <= i < |chosen| =>
      SegmentJob(chosen[i].clip.path, chosen[i].window.start, chosen[i].window.length,
                 ScalingForV1(chosen[i].clip.frame, Size(aspect)), SegmentPath(tempDir, i)))
  }

  /** The positions from `k` on at which `ok` holds, in increasing order. */
  function Successes(ok: seq<bool>, k: nat): (idx: seq<nat>)
    requires k <= |ok|
    ensures forall j :: 0 <= j < |idx| ==> k <= idx[j] < |ok| && ok[idx[j]]
    ensures forall j, l :: 0 <= j < l < |idx| ==> idx[j] < idx[l]
    ensures forall i :: k <= i < |ok| && ok[i] ==> i in idx
    ensures (forall i :: k <= i < |ok| ==> ok[i]) ==> |idx| == |ok| - k && forall j :: 0 <= j < |idx| ==> idx[j] == k + j
    decreases |ok| - k
  {
    if k == |ok| then []
    else
      var rest := Successes(ok, k + 1);
      if ok[k] then [k] + rest else rest
  }

  /** `Survivors` of the files from position `k` on. */
  function SurvivorsFrom(files: seq<string>, ok: seq<bool>, k: nat): (kept: seq<string>)
    requires |ok| == |files| && k <= |files|
    ensures |kept| == |Successes(ok, k)|
    ensures forall j :: 0 <= j < |kept| ==> kept[j] == files[Successes(ok, k)[j]]
    decreases |files| - k
  {
    if k == |files| then []
    else
      var rest := SurvivorsFrom(files, ok, k + 1);
      if ok[k] then [files[k]] + rest else rest
  }

  /**
   The files the current revision keeps: exactly those whose ffmpeg run
   exited with 0 and left a non-empty file (`ok[i]`), in extraction order.
   Nothing is kept exactly when every run failed. The older revision keeps
   every file, which is this with every flag set.
   */
  function Survivors(files: seq<string>, ok: seq<bool>): (kept: seq<string>)
    requires |ok| == |files|
    ensures |kept| == |Successes(ok, 0)|
    ensures forall j :: 0 <= j < |kept| ==> kept[j] == files[Successes(ok, 0)[j]]
    ensures kept == [] <==> forall i :: 0 <= i < |ok| ==> !ok[i]
    ensures (forall i :: 0 <= i < |ok| ==> ok[i]) ==> kept == files
  {
    NoSuccesses(ok);
    AllSucceeded(files, ok);
    SurvivorsFrom(files, ok, 0)
  }

  /** When every extraction succeeded every file is kept, as the older revision does. */
  lemma AllSucceeded(files: seq<string>, ok: seq<bool>)
    requires |ok| == |files|
    ensures (forall i :: 0 <= i < |ok| ==> ok[i]) ==> SurvivorsFrom(files, ok, 0) == files
  {
    if forall i :: 0 <= i < |ok| ==> ok[i] {
      var kept := SurvivorsFrom(files, ok, 0);
      var idx := Successes(ok, 0);
      assert |kept| == |files|;
      forall j | 0 <= j < |kept|
        ensures kept[j] == files[j]
      {
        assert idx[j] == j;
      }
    }
  }

  /** There are no successful positions exactly when every flag is false. */
  lemma NoSuccesses(ok: seq<bool>)
    ensures Successes(ok, 0) == [] <==> forall i :: 0 <= i < |ok| ==> !ok[i]
  {
    var idx := Successes(ok, 0);
    if exists i :: 0 <= i < |ok| && ok[i] {
      var i :| 0 <= i < |ok| && ok[i];
      assert i in idx;
    }
    if idx != [] {
      assert ok[idx[0]];
    }
  }

  /** The montage aborts with "No valid segments were created" exactly when no extraction succeeded. */
  datatype Assembly = NoValidSegments | Assemble(segments: seq<string>)

  /**
   The segment files the current revision hands on to the concat step:
   the i-th segment path for every successful extraction i, in order.
   */
  function AssembleSegments(tempDir: string, chosen: seq<Pick>, ok: seq<bool>): (a: Assembly)
    requires |ok| == |chosen|
    ensures a.NoValidSegments? <==> forall i :: 0 <= i < |ok| ==> !ok[i]
    ensures a.Assemble? ==>
      && |a.segments| == |Successes(ok, 0)|
      && forall j :: 0 <= j < |a.segments| ==> a.segments[j] == SegmentPath(tempDir, Successes(ok, 0)[j])
  {
    var files := seq(|chosen|, i requires 0 <= i < |chosen| => SegmentPath(tempDir, i));
    var kept := Survivors(files, ok);
    if kept == [] then NoValidSegments else Assemble(kept)
  }

  /** A segment path under a quotable directory is itself quotable. */
  lemma SegmentPathQuotable(tempDir: string, i: nat)
    requires Quotable(tempDir)
    ensures Quotable(SegmentPath(tempDir, i))
  {
    var digits := ZeroPad3(i);
    assert forall k :: 0 <= k < |digits| ==> IsDigit(digits[k]);
    var name := SegmentFileName(i);
    assert Quotable(name);
    assert Quotable("/");
  }

  /**
   The concat list written for the surviving segments reads back as exactly
   those segment files, in order, whenever the temporary directory's path
   holds no quote or line break.
   */
  lemma SegmentListRoundTrip(tempDir: string, chosen: seq<Pick>, ok: seq<bool>)
    requires |ok| == |chosen|
    requires Quotable(tempDir)
    ensures var a := AssembleSegments(tempDir, chosen, ok);
      a.Assemble? ==> ParseListText(ListText(a.segments)) == Some(a.segments)
  {
    var a := AssembleSegments(tempDir, chosen, ok);
    if a.Assemble? {
      forall k | 0 <= k < |a.segments|
        ensures Quotable(a.segments[k])
      {
        SegmentPathQuotable(tempDir, Successes(ok, 0)[k]);
      }
      ListRoundTrip(a.segments);
    }
  }
}
