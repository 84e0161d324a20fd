# video_editor — a Dafny model of the montage planner

`video_editor` builds short social-media montages from longer clips. The
scripts (`video_editor_script.py`, the older `video_editor_script_v1.py`)
probe each clip with ffprobe and bucket it by duration. They then choose
evenly spaced windows from every clip, shuffle and cap the selection, and
cut each window to the target frame with a scale-and-crop filter. The
pieces are joined through a concat list, or a multi-input filter graph as a
fallback, and a faded `@Suite.E.Studios` caption is added. A Tk front end
(`video_montage_gui.py`) turns a form into the script's command line.

This project models the pure decisions and serialisations of that
pipeline. Every probed value, file-existence test and ffmpeg exit status is
a parameter:

| module | file | what it models |
|---|---|---|
| `Aspects` | aspects.dfy | the `ASPECT_RATIOS` table and its lookup by name |
| `Categories` | categories.dfy | `categorize_video` in both revisions |
| `Validation` | validation.dfy | `validate_inputs` (both revisions) as a partition of the probed paths |
| `Reframe` | reframe.dfy | `determine_scaling_filter`: the computed scale/crop of the current revision, a corrected planner, and the four templates of the older one |
| `Shuffling` | shuffle.dfy | `random.shuffle` as Fisher–Yates, with the random draws as a parameter |
| `Segments` | segments.dfy | `extract_interesting_segments` |
| `Montage` | montage.dfy | the budget, pool, selection, segment file names, extraction jobs and surviving files of `create_video_montage` |
| `ConcatList` | concat_list.dfy | the `concat_list.txt` text and a reader for it |
| `FilterGraph` | filter_graph.dfy | the `fallback_create_output` filter graph and argument vector |
| `TextOverlay` | text_overlay.dfy | `create_text_overlay_filter`: caption count, times and alpha fade |
| `InputString` | input_string.dfy | `parse_input_string` and its inverse |
| `Gui` | gui.dfy | `build_command`, a reader for its vector, and the output name `browse_input` suggests |
| `Strings`, `Paths`, `Wrappers` | strings.dfy, paths.dfy, wrappers.dfy | Python's `str`/`int` text conversions, `strip`/`split`/`join`/`lower`, and POSIX `os.path` |

Where the two revisions have the same text (`extract_interesting_segments`,
the segment budget, `create_text_overlay_filter`, `parse_input_string`),
one definition models both. Each operation is paired with a partner:
- a reader that inverts it (input strings, concat lists, filter graphs, GUI commands, segment names);
- an invariant it keeps (partition of the inputs, permutation under shuffling, pairwise-disjoint windows);
- or a second definition it is compared with (the older categoriser; the corrected reframe planner, and the extraction that uses it).

The extraction jobs apply the filter as the current script computes it, including the crop that escapes the frame (see "## Findings"). The corrected planner is modelled beside it, not in its place.

## Model

| member | source | states |
|---|---|---|
| Aspects.Size | video_editor_script.py:12-16 | every format has positive width not exceeding its height (reel and TikTok 1080x1920, square 1080x1080) |
| Aspects.FromName | video_editor_script.py:389-392 | a name is accepted exactly when it is one of the table's keys, and then maps to that format |
| Aspects.FromNameOfName | video_editor_script.py:12-16 | looking up a format's own key gives that format back |
| Aspects.ReelAndTikTokSameFrame | video_editor_script.py:13-14 | reel and TikTok share one portrait frame; square is not portrait |
| Categories.Categorize | video_editor_script.py:53-66 | a duration is valid exactly when it lies in [30, 3600]; short is exactly [30, 60], medium (60, 300], medium-long (300, 1800] and long (1800, 3600] |
| Categories.CategorizeMonotone | video_editor_script.py:57-64 | among valid durations, a longer clip never gets a shorter bucket |
| Categories.CategorizeV1 | video_editor_script_v1.py:53-64 | the older table has no medium-long bucket; a duration is valid exactly when it is in [30, 300] or [1800, 3600]; short is exactly [30, 60], medium (60, 300] and long exactly [1800, 3600] |
| Categories.CategorizeV1Monotone | video_editor_script_v1.py:57-62 | the older buckets are also ordered by duration |
| Categories.RevisionsAgree | video_editor_script_v1.py:53-64 | the revisions agree except at exactly 1800 s (long vs medium-long); the older one rejects exactly the durations in (300, 1800) that the newer one accepts; nothing the newer one rejects is accepted by the older |
| Validation.Grouped | video_editor_script.py:101-117 | grouping by category partitions the probed paths: one group per category present, each holding its paths in input order; the groups follow the order in which their categories are first probed |
| Validation.Scan | video_editor_script.py:101-104 | the scan fails exactly when some path is missing, and otherwise yields the grouping |
| Validation.ValidateInputs | video_editor_script.py:97-133 | rejects exactly when a path is missing, a clip is invalid, or short clips are the only category and there are fewer than three; on success the groups partition the inputs in first-seen category order |
| Validation.InvalidCheck | video_editor_script.py:125-131 | the grouping has an invalid group exactly when some clip is invalid |
| Validation.ShortCheck | video_editor_script.py:120-122 | the short-only test on the groups is the same as "all clips short and fewer than three" |
| Validation.AllVideosPermutesInputs | video_editor_script.py:443-450 | the flattened accepted groups are a permutation of the input paths |
| Reframe.ScalingFor | video_editor_script.py:68-96 | the crop is centred; it has the target size for a portrait target and is square otherwise; a landscape source is scaled to the target height and width ⌊th·w/h⌋, any other source to the target width and height ⌊tw·h/w⌋ |
| Reframe.ScalingForChecked | video_editor_script.py:68-96 | the planner fails (Python's `ZeroDivisionError`) exactly when a side of the source is zero, and otherwise yields the filter |
| Reframe.ReelAndTikTokAgree | video_editor_script.py:72-75 | reel and TikTok give identical filters for every source |
| Reframe.PortraitFromLandscape | video_editor_script.py:78-81 | a landscape source for a portrait target is scaled to the target height, wider than the target, and cropped to exactly the target with a non-negative x offset and zero y offset |
| Reframe.PortraitFromTallFitsIff | video_editor_script.py:82-85 | for a non-landscape source and a portrait target, the crop stays inside the scaled frame exactly when the source is no wider than the target ratio |
| Reframe.SquareTargetFits | video_editor_script.py:88-96 | for the square target the crop is always inside the scaled frame |
| Reframe.SquareSourceForReelEscapesFrame | video_editor_script.py:82-85 | a 1080x1080 source for a reel gets a 1920-high crop of a 1080-high frame at y = -420 |
| Reframe.ScalingForFill | video_editor_script.py:68-96 | corrected planner: centred crop of exactly the target size, always inside a scaled frame that covers the target; a source wider than the target's ratio is scaled to height th and width ⌊th·w/h⌋, any other to width tw and height ⌊tw·h/w⌋ |
| Reframe.PlanReframe | video_editor_script.py:68-75 | corrected planner for a named format: the crop is exactly the format's frame, centred and inside the scaled source |
| Reframe.AsWrittenAgreesWhenInside | video_editor_script.py:68-96 | for portrait or square targets, the as-written planner equals the corrected one exactly when its crop stays inside the frame |
| Reframe.ScalingForV1 | video_editor_script_v1.py:66-88 | older templates: crop of target size for portrait targets; for the square target a square of the target height (landscape source) or width (otherwise); exactly one scale side derived, the width only for a landscape source and the square target, the fixed side being the target's own width or height; the crop centred across the width for a landscape source and down the height otherwise |
| Reframe.ScalingForV1Checked | video_editor_script_v1.py:66-69 | the older planner fails exactly when the source height is zero; a zero width gets the non-landscape template |
| Reframe.V1DependsOnlyOnOrientation | video_editor_script_v1.py:75-88 | the older planner looks at the source only through "landscape or not" |
| Shuffling.Swap | video_editor_script.py:151 | one Fisher–Yates exchange: positions i and j are exchanged, every other position is unchanged, and the multiset is kept |
| Shuffling.Shuffle | video_editor_script.py:151 | shuffling keeps the length and the multiset of elements |
| Shuffling.ShuffleSameElements | video_editor_script.py:174 | an element is in the shuffled list exactly when it was in the original |
| Shuffling.ShuffleKeepsPairwise | video_editor_script.py:151 | any relation holding between every pair of elements still holds after shuffling |
| Segments.EvenWindows | video_editor_script.py:141-142 | n windows: the first starts at 0 and each next one duration/n later; for a clip of positive length every start lies inside it; all windows share the length max(minimum, duration/2n), never below the minimum |
| Segments.Fitting | video_editor_script.py:144-148 | a window is kept exactly when it is a candidate and ends within the clip |
| Segments.FittingIsFilter | video_editor_script.py:144-148 | the kept windows keep their order: around any window, the kept ones before it, then that window exactly when it ends within the clip, then the kept ones after it |
| Segments.ExtractInterestingSegments | video_editor_script.py:135-152 | at most n windows, a permutation of the fitting candidates, each starting at or after 0, ending within the clip and of the computed length; pairwise non-overlapping when duration/2n reaches the minimum |
| Segments.EvenWindowsDisjoint | video_editor_script.py:141-142 | when duration/2n is at least the minimum, no two candidate windows overlap |
| Segments.FittingKeepsPairwise | video_editor_script.py:145-148 | filtering keeps pairwise disjointness |
| Montage.SegmentsPerClip | video_editor_script.py:166-167 | a clip offers at least 3 windows, and otherwise the floor of duration/12 |
| Montage.SegmentsPerClipMonotone | video_editor_script.py:166-167 | a longer clip never offers fewer windows |
| Montage.SegmentsNeeded | video_editor_script.py:160-161 | the montage needs at least 3 segments, and otherwise the floor of duration/4 |
| Montage.ClipPicks | video_editor_script.py:166-171 | a clip contributes each of its fitting evenly spaced windows exactly once (a permutation of them), every pick tagged with that clip and inside it |
| Montage.Pool | video_editor_script.py:164-171 | the pool is a permutation of every clip's fitting windows tagged with the clip, so it holds exactly as many picks as the clips offer, each inside its clip |
| Montage.PlanMontageSegments | video_editor_script.py:173-176 | the selection has exactly min(windows offered, needed) picks, draws no pick more often than the clips offer it, and each pick fits its input clip |
| Montage.SegmentFileName | video_editor_script.py:185 | segment file names have no directory separator and at least three index digits |
| Montage.SegmentIndexOfName | video_editor_script.py:185 | the index is read back from the file name, so distinct segments get distinct files |
| Montage.SegmentPathBasename | video_editor_script.py:185 | a segment path's basename is the segment file name and its dirname is the directory |
| Montage.SegmentJobs | video_editor_script.py:184-201 | one job per selected pick, in order: its clip, start and length, written to the i-th segment file, with the as-written filter: centred, the format's frame for portrait formats, and inside the scaled clip exactly when the clip is landscape, the format square, or the clip no wider than the format |
| Montage.FilledSegmentJobs | video_editor_script.py:184-201 | the extraction with the corrected planner: the same commands, each segment exactly the format's frame from inside the scaled clip |
| Montage.SegmentJobsAgreeIff | video_editor_script.py:184-201 | the as-written and corrected extractions issue the same commands exactly when every chosen clip fits as written |
| Montage.SegmentJobsV1 | video_editor_script_v1.py:168-187 | the older extraction: the same commands with the template filter, whose crop is always the format's frame |
| Montage.Survivors | video_editor_script.py:212-215 | the kept files are exactly the files at the successful positions, in increasing order; none exactly when all failed; all of them when all succeeded, which is the older revision's behaviour |
| Montage.AssembleSegments | video_editor_script.py:217-218 | the montage aborts exactly when no segment was extracted, and otherwise joins the segment path of every successful extraction, in extraction order, and nothing else |
| Montage.SegmentListRoundTrip | video_editor_script.py:234-240 | the concat list of the surviving segments reads back as exactly those files, in order |
| ConcatList.ListText | video_editor_script.py:237-240 | the list is empty exactly when there are no files, with at least one line break per file |
| ConcatList.ParseListTextSound | video_editor_script.py:237-240 | whatever the reader accepts is exactly the list text of what it returns |
| ConcatList.ListRoundTrip | video_editor_script_v1.py:189-193 | reading the written list gives back the segment files in order, for paths without quote or line break |
| FilterGraph.BuildGraph | video_editor_script.py:316-321 | each of N inputs is scaled once to the frame with its own label, and concat reads every label once, in input order |
| FilterGraph.RenderMatchesScript | video_editor_script.py:316-328 | for N ≥ 1 the rendered graph is exactly the string the fallback assembles |
| FilterGraph.ChainsRecovered | video_editor_script.py:321-328 | splitting the text at semicolons gives back N scale chains, the concat and the caption, in order |
| FilterGraph.FallbackCommand | video_editor_script.py:330-340 | the vector has 2N + 13 entries: `ffmpeg -y`, then `-i` and the files in order, then the graph, map, codec, preset, duration and output |
| FilterGraph.InputsRecovered | video_editor_script.py:319-320 | every second argument after `-y` gives back the segment files in order |
| FilterGraph.FallbackWithCaptions | video_editor_script.py:312-335 | with the caption filter of `create_text_overlay_filter(duration)` and the format's size, the graph argument is the script's string, and splitting it at `;` gives one scale chain per segment, the concat, and last `[outv]<captions>[out]` |
| TextOverlay.DisplayCount | video_editor_script.py:355-356 | between 3 and 5 captions: 3 below 60 s, 5 from 100 s, otherwise one per 20 s |
| TextOverlay.Schedule | video_editor_script.py:358-366 | caption i starts after i + 1 intervals and lasts 3 s, so captions are one interval apart; for a positive duration they start strictly inside the montage, in increasing order |
| TextOverlay.AlphaFade | video_editor_script.py:373 | opacity is 0 at both ends, 1 on the plateau from start+0.5 to end−0.5, and within [0, 1] while the caption is shown |
| TextOverlay.ScheduleFades | video_editor_script.py:364-375 | every scheduled caption fades in and out within [0, 1] |
| TextOverlay.OverlayHasNoSemicolon | video_editor_script.py:370-377 | the caption filter holds no `;`, so it cannot break the filter graph it is embedded in |
| InputString.ParseInputString | video_editor_script.py:379-397 | fewer than three parts fail; an unknown format keeps only the stripped name; otherwise the stripped name, the format and the stripped videos in order |
| InputString.InputStringRoundTrip | video_editor_script.py:381-397 | a written request with comma-free, already stripped pieces parses back to itself |
| InputString.FormatCaseInsensitive | video_editor_script.py:389-390 | any letter case and outer spaces in the format field select the same format |
| Gui.BuildCommand | video_montage_gui.py:310-359 | interpreter and script first; `-d <duration>` always; the pan, text and intro groups appear as contiguous runs when set; the input video, when set, is last |
| Gui.CommandGroups | video_montage_gui.py:322-349 | each enabled group is a contiguous run of the vector |
| Gui.InputLast | video_montage_gui.py:355-357 | nothing follows the input video |
| Gui.CommandRoundTrip | video_montage_gui.py:310-359 | reading the vector back gives the form with exactly the unwritten fields cleared, if the input path is not a flag |
| Gui.GroupsReadBack | video_montage_gui.py:330-349 | panning, text and intro flags appear exactly when their fields are set, and the input video is read back |
| Gui.SuggestionBesideInput | video_montage_gui.py:267-270 | the suggestion lies in the input's directory and is named after the input's stem with `_montage.mp4` |
| Gui.BrowseInput | video_montage_gui.py:259-271 | a cancelled dialog changes nothing; otherwise the input is set and the suggestion fills the output only when it was empty; no other field changes |
| Strings.SplitJoin | video_editor_script.py:381 | splitting a separator-joined list of separator-free pieces gives the pieces back |
| Strings.StripIdempotent | video_editor_script.py:381-393 | stripping twice is stripping once |
| Paths.JoinSplitsBack | video_montage_gui.py:268-270 | joining a directory with a plain name is undone by `basename` and `dirname` |

## Left out

- Paths: `os.path` is modelled as `posixpath`, with `/` as the only separator. On Windows the GUI's `os.path` is `ntpath`, which also splits at `\` and keeps drive letters; that variant is not modelled.
- Running ffmpeg and ffprobe (`check_ffmpeg`, `get_video_duration`, `get_video_dimensions`, and each `subprocess.run`): durations, frame sizes and exit statuses are parameters. `create_final_output` only runs a command and is not modelled beyond the caption filter it passes.
- Temporary directories, file existence and size checks, and writing `concat_list.txt`: these are boolean inputs (`Montage.Survivors`) or the text itself (`ConcatList.ListText`).
- Montage.SegmentJobs: how ffmpeg treats a crop that escapes the scaled frame is not modelled. The job records the filter, and the outcome of the run is the `ok` flag that `Montage.Survivors` reads.
- The `try`/`except` choice between the concat path and the fallback path is not modelled as control flow; both outputs are modelled.
- Shuffling.Shuffle: the random source is the `draw` parameter. The model follows CPython's `random.shuffle` loop; the generator itself is not modelled.
- Segments.ExtractInterestingSegments: times are exact reals, and Python's float rounding of `duration / num_segments` and of the window arithmetic is not modelled.
- Reframe.ScalingFor: a zero side raises `ZeroDivisionError` in the source. This planner requires a positive frame, and `Reframe.ScalingForChecked` models the failure. Negative sizes, which ffprobe never reports, are outside the model.
- Montage.SegmentJobs: every chosen clip must have a positive frame. In the source a zero side raises out of the extraction loop and ends the montage; that exception is not modelled as control flow.
- Reframe.ScalingFor: `int(target_height * video_aspect)` is modelled as the exact floor of `target_height * width / height`. A float product that rounds across an integer can differ by one pixel.
- TextOverlay.DrawText: how Python prints a float inside the filter text is the `num` parameter; only the numbers are modelled, not their digits.
- Gui.BuildCommand: the two Tk `DoubleVar` fields (pan speed and distance) are held as the text `str()` gives them.
- Gui.CommandRoundTrip: the reader is this model's own reading of the GUI's flag vocabulary. The shown script's `argparse` accepts only `-i`, `-o`, `-d`, `-f` and positional videos; the other flags belong to a later revision of the script that is not part of this model.
- `main`: argument parsing, the `.mp4` suffix added to the output name, and printing are not modelled. Only the flattening of the accepted groups is (`Validation.AllVideosPermutesInputs`).
- Tk widgets, file dialogs (the chosen file name is a parameter of `Gui.BrowseInput`), threads and process streaming in the GUI, and the launcher script.
- The test file targets a later revision with pan/zoom and easing functions that the shown scripts do not contain; its assertions are not used as contracts.

## Findings

| source | as written | input that shows it | evidently intended | confidence | as-written member | corrected member |
|---|---|---|---|---|---|---|
| video_editor_script.py:82-85 | for a portrait target and a source that is not landscape, the frame is scaled to the target width and a target-height crop is taken at y = (new_height − target_height)/2 | a 1080x1080 source for `instagram_reel`: scale 1080:1080, crop 1080:1920 at y = (1080−1920)/2 = −420, a crop taller than the frame it is cut from | scale so the frame covers the target (by comparing the two aspect ratios) and take a target-size crop inside it | not executed; high — follows from the arithmetic for every source wider than 9:16 that is not landscape | Reframe.SquareSourceForReelEscapesFrame | Reframe.ScalingForFill |
