/**
 The two pure parts of `VideoMontageCreatorGUI`: `build_command`, which
 turns the form into the argument vector handed to the script, and the
 output name `browse_input` suggests. Form fields are the Tk variables'
 values; the two `DoubleVar` fields are held as the text `str()` gives them.
 */
module Gui {
  import opened Wrappers
  import opened Strings
  import opened Paths

  datatype Form = Form(
    inputVideo: string,
    outputFile: string,
    format: string,
    duration: int,
    segments: string,
    panning: bool,
    panStrategy: string,
    panSpeed: string,
    panDistance: string,
    easing: string,
    text: string,
    textStyle: string,
    logoPath: string,
    introVideoPath: string,
    introVideoLength: int,
    introAudioPath: string)

  /** `chunk` when `present`, nothing otherwise. */
  function When(present: bool, chunk: seq<string>): seq<string>
  {
    if present then chunk else []
  }

  function PanArgs(f: Form): seq<string>
  {
    ["--panning", "--pan-strategy", f.panStrategy, "--pan-speed", f.panSpeed, "--pan-distance", f.panDistance, "--easing", f.easing]
  }

  function TextArgs(f: Form): seq<string>
  {
    ["--text", f.text, "--text-style", f.textStyle]
  }

  function IntroArgs(f: Form): seq<string>
  {
    ["--intro-video", f.introVideoPath, "--intro-video-length", IntToString(f.introVideoLength)]
  }

  // The argument vector after the script path, built from the back: `Tail0`
  // is everything, `Tail9` only the positional input video.

  function Tail9(f: Form): seq<string> { When(f.inputVideo != "", [f.inputVideo]) }
  function Tail8(f: Form): seq<string> { When(f.introAudioPath != "", ["--intro-audio", f.introAudioPath]) + Tail9(f) }
  function Tail7(f: Form): seq<string> { When(f.introVideoPath != "", IntroArgs(f)) + Tail8(f) }
  function Tail6(f: Form): seq<string> { When(f.logoPath != "", ["--logo", f.logoPath]) + Tail7(f) }
  function Tail5(f: Form): seq<string> { When(f.text != "", TextArgs(f)) + Tail6(f) }
  function Tail4(f: Form): seq<string> { When(f.panning, PanArgs(f)) + Tail5(f) }
  function Tail3(f: Form): seq<string> { When(f.segments != "", ["--segments", f.segments]) + Tail4(f) }
  function Tail2(f: Form): seq<string> { ["-d", IntToString(f.duration)] + Tail3(f) }
  function Tail1(f: Form): seq<string> { When(f.format != "", ["-f", f.format]) + Tail2(f) }
  function Tail0(f: Form): seq<string> { When(f.outputFile != "", ["-o", f.outputFile]) + Tail1(f) }

  /** `run` occurs in `xs` starting at position `k`. */
  predicate RunAt(xs: seq<string>, run: seq<string>, k: int) {
    0 <= k && k + |run| <= |xs| && xs[k..k + |run|] == run
  }

  predicate Contains(xs: seq<string>, run: seq<string>) {
    exists k :: 0 <= k <= |xs| && RunAt(xs, run, k)
  }

  /**
   `build_command`: the interpreter and script first, `-d` always, each
   optional group as one contiguous run when its field is set, and the
   input video, when set, last.
   */
  function BuildCommand(f: Form, interpreter: string, scriptPath: string): (argv: seq<string>)
    ensures |argv| >= 4 && argv[..2] == [interpreter, scriptPath]
    ensures Contains(argv, ["-d", IntToString(f.duration)])
    ensures f.panning ==> Contains(argv, ["--panning", "--pan-strategy", f.panStrategy, "--pan-speed", f.panSpeed,
                                           "--pan-distance", f.panDistance, "--easing", f.easing])
    ensures f.text != "" ==> Contains(argv, ["--text", f.text, "--text-style", f.textStyle])
    ensures f.introVideoPath != "" ==> Contains(argv, ["--intro-video", f.introVideoPath, "--intro-video-length", IntToString(f.introVideoLength)])
    ensures f.inputVideo != "" ==> argv[|argv| - 1] == f.inputVideo
  {
    var argv := [interpreter, scriptPath] + Tail0(f);
    CommandGroups(f, interpreter, scriptPath);
    InputLast(f, interpreter, scriptPath);
    argv
  }

  lemma ContainsHere(run: seq<string>, rest: seq<string>)
    ensures Contains(run + rest, run)
  {
    assert RunAt(run + rest, run, 0);
  }

  lemma ContainsLater(a: seq<string>, xs: seq<string>, run: seq<string>)
    requires Contains(xs, run)
    ensures Contains(a + xs, run)
  {
    var k :| 0 <= k <= |xs| && RunAt(xs, run, k);
    assert (a + xs)[|a| + k..|a| + k + |run|] == xs[k..k + |run|];
    assert RunAt(a + xs, run, |a| + k);
  }

  /** Every present group is a contiguous run of the vector. */
  lemma CommandGroups(f: Form, interpreter: string, scriptPath: string)
    ensures var argv := [interpreter, scriptPath] + Tail0(f);
      && Contains(argv, ["-d", IntToString(f.duration)])
      && (f.panning ==> Contains(argv, PanArgs(f)))
      && (f.text != "" ==> Contains(argv, TextArgs(f)))
      && (f.introVideoPath != "" ==> Contains(argv, IntroArgs(f)))
  {
    var head := [interpreter, scriptPath];
    var s := When(f.segments != "", ["--segments", f.segments]);
    var p := When(f.panning, PanArgs(f));
    var t := When(f.text != "", TextArgs(f));
    var l := When(f.logoPath != "", ["--logo", f.logoPath]);
    ContainsHere(["-d", IntToString(f.duration)], Tail3(f));
    LiftFromTail2(f, head, ["-d", IntToString(f.duration)]);
    if f.panning {
      ContainsHere(PanArgs(f), Tail5(f));
      ContainsLater(s, Tail4(f), PanArgs(f));
      LiftFromTail3(f, head, PanArgs(f));
    }
    if f.text != "" {
      ContainsHere(TextArgs(f), Tail6(f));
      ContainsLater(p, Tail5(f), TextArgs(f));
      ContainsLater(s, Tail4(f), TextArgs(f));
      LiftFromTail3(f, head, TextArgs(f));
    }
    if f.introVideoPath != "" {
      ContainsHere(IntroArgs(f), Tail8(f));
      ContainsLater(l, Tail7(f), IntroArgs(f));
      ContainsLater(t, Tail6(f), IntroArgs(f));
      ContainsLater(p, Tail5(f), IntroArgs(f));
      ContainsLater(s, Tail4(f), IntroArgs(f));
      LiftFromTail3(f, head, IntroArgs(f));
    }
  }

  lemma LiftFromTail2(f: Form, head: seq<string>, run: seq<string>)
    requires Contains(Tail2(f), run)
    ensures Contains(head + Tail0(f), run)
  {
    ContainsLater(When(f.format != "", ["-f", f.format]), Tail2(f), run);
    ContainsLater(When(f.outputFile != "", ["-o", f.outputFile]), Tail1(f), run);
    ContainsLater(head, Tail0(f), run);
  }

  lemma LiftFromTail3(f: Form, head: seq<string>, run: seq<string>)
    requires Contains(Tail3(f), run)
    ensures Contains(head + Tail0(f), run)
  {
    ContainsLater(["-d", IntToString(f.duration)], Tail3(f), run);
    LiftFromTail2(f, head, run);
  }

  lemma LastOfAppend(a: seq<string>, b: seq<string>)
    requires |b| >= 1
    ensures (a + b)[|a + b| - 1] == b[|b| - 1]
  {
  }

  /** Nothing follows the input video. */
  lemma InputLast(f: Form, interpreter: string, scriptPath: string)
    ensures var argv := [interpreter, scriptPath] + Tail0(f); f.inputVideo != "" ==> argv[|argv| - 1] == f.inputVideo
  {
    if f.inputVideo == "" {
      return;
    }
    LastOfAppend(When(f.introAudioPath != "", ["--intro-audio", f.introAudioPath]), Tail9(f));
    LastOfAppend(When(f.introVideoPath != "", IntroArgs(f)), Tail8(f));
    LastOfAppend(When(f.logoPath != "", ["--logo", f.logoPath]), Tail7(f));
    LastOfAppend(When(f.text != "", TextArgs(f)), Tail6(f));
    LastOfAppend(When(f.panning, PanArgs(f)), Tail5(f));
    LastOfAppend(When(f.segments != "", ["--segments", f.segments]), Tail4(f));
    LastOfAppend(["-d", IntToString(f.duration)], Tail3(f));
    LastOfAppend(When(f.format != "", ["-f", f.format]), Tail2(f));
    LastOfAppend(When(f.outputFile != "", ["-o", f.outputFile]), Tail1(f));
    LastOfAppend([interpreter, scriptPath], Tail0(f));
  }

  // ---------------------------------------------------------------------
  // Reading the vector back

  /** The flags that take a value. */
  predicate ValueFlag(s: string) {
    s in {"-o", "-f", "-d", "--segments", "--pan-strategy", "--pan-speed", "--pan-distance", "--easing",
          "--text", "--text-style", "--logo", "--intro-video", "--intro-video-length", "--intro-audio"}
  }

  predicate Flag(s: string) {
    s == "--panning" || ValueFlag(s)
  }

  /** The form with nothing filled in; what the reader starts from. */
  const Blank: Form := Form("", "", "", 0, "", false, "", "", "", "", "", "", "", "", 0, "")

  /** Records one flag's value in the form. */
  function SetValue(f: Form, flag: string, value: string): Option<Form>
  {
    match flag
    case "-o" => Some(f.(outputFile := value))
    case "-f" => Some(f.(format := value))
    case "-d" => (match ParseInt(value) case Some(n) => Some(f.(duration := n)) case None => None)
    case "--segments" => Some(f.(segments := value))
    case "--pan-strategy" => Some(f.(panStrategy := value))
    case "--pan-speed" => Some(f.(panSpeed := value))
    case "--pan-distance" => Some(f.(panDistance := value))
    case "--easing" => Some(f.(easing := value))
    case "--text" => Some(f.(text := value))
    case "--text-style" => Some(f.(textStyle := value))
    case "--logo" => Some(f.(logoPath := value))
    case "--intro-video" => Some(f.(introVideoPath := value))
    case "--intro-video-length" => (match ParseInt(value) case Some(n) => Some(f.(introVideoLength := n)) case None => None)
    case "--intro-audio" => Some(f.(introAudioPath := value))
    case _ => None
  }

  /**
   Reads arguments the way the script's option parser treats this vector:
   `--panning` alone, a value flag with the next token, anything else as
   the input video.
   */
  function ParseArgs(args: seq<string>, f: Form): Option<Form>
    decreases |args|
  {
    if args == [] then Some(f)
    else if args[0] == "--panning" then ParseArgs(args[1..], f.(panning := true))
    else if ValueFlag(args[0]) then
      if |args| < 2 then None
      else match SetValue(f, args[0], args[1])
        case Some(g) => ParseArgs(args[2..], g)
        case None => None
    else ParseArgs(args[1..], f.(inputVideo := args[0]))
  }

  /** Reads a whole vector, skipping the interpreter and script path. */
  function ParseCommand(argv: seq<string>): Option<Form>
  {
    if |argv| < 2 then None else ParseArgs(argv[2..], Blank)
  }

  /** What a command can carry: the form with every field that is not written cleared. */
  function Visible(f: Form): (g: Form)
    ensures g.panning == f.panning && g.text == f.text && g.introVideoPath == f.introVideoPath && g.inputVideo == f.inputVideo
  {
    f.(panStrategy := if f.panning then f.panStrategy else "",
       panSpeed := if f.panning then f.panSpeed else "",
       panDistance := if f.panning then f.panDistance else "",
       easing := if f.panning then f.easing else "",
       textStyle := if f.text != "" then f.textStyle else "",
       introVideoLength := if f.introVideoPath != "" then f.introVideoLength else 0)
  }

  lemma PairStep(flag: string, value: string, rest: seq<string>, f: Form, g: Form)
    requires ValueFlag(flag) && SetValue(f, flag, value) == Some(g)
    ensures ParseArgs([flag, value] + rest, f) == ParseArgs(rest, g)
  {
    assert ([flag, value] + rest)[2..] == rest;
  }

  lemma ChunkStep(present: bool, flag: string, value: string, rest: seq<string>, f: Form, g: Form)
    requires ValueFlag(flag) && (present ==> SetValue(f, flag, value) == Some(g)) && (!present ==> g == f)
    ensures ParseArgs(When(present, [flag, value]) + rest, f) == ParseArgs(rest, g)
  {
    if present {
      PairStep(flag, value, rest, f, g);
    } else {
      assert When(present, [flag, value]) + rest == rest;
    }
  }

  lemma InputStep(f: Form, g: Form, w: Form)
    requires !Flag(f.inputVideo)
    requires g == w.(inputVideo := "") && w.inputVideo == f.inputVideo
    ensures ParseArgs(Tail9(f), g) == Some(w)
  {
    if f.inputVideo != "" {
      assert [f.inputVideo][1..] == [];
    }
  }

  lemma PanStep(f: Form, rest: seq<string>, g: Form)
    requires f.panning
    ensures ParseArgs(PanArgs(f) + rest, g) == ParseArgs(rest, g.(panning := true, panStrategy := f.panStrategy, panSpeed := f.panSpeed, panDistance := f.panDistance, easing := f.easing))
  {
    var a := PanArgs(f) + rest;
    assert a[1..] == ["--pan-strategy", f.panStrategy] + (["--pan-speed", f.panSpeed] + (["--pan-distance", f.panDistance] + (["--easing", f.easing] + rest)));
    var g1 := g.(panning := true);
    PairStep("--pan-strategy", f.panStrategy, ["--pan-speed", f.panSpeed] + (["--pan-distance", f.panDistance] + (["--easing", f.easing] + rest)), g1, g1.(panStrategy := f.panStrategy));
    var g2 := g1.(panStrategy := f.panStrategy);
    PairStep("--pan-speed", f.panSpeed, ["--pan-distance", f.panDistance] + (["--easing", f.easing] + rest), g2, g2.(panSpeed := f.panSpeed));
    var g3 := g2.(panSpeed := f.panSpeed);
    PairStep("--pan-distance", f.panDistance, ["--easing", f.easing] + rest, g3, g3.(panDistance := f.panDistance));
    var g4 := g3.(panDistance := f.panDistance);
    PairStep("--easing", f.easing, rest, g4, g4.(easing := f.easing));
  }

  lemma TwoPairs(f1: string, v1: string, f2: string, v2: string, rest: seq<string>, g: Form, g1: Form, g2: Form)
    requires ValueFlag(f1) && ValueFlag(f2)
    requires SetValue(g, f1, v1) == Some(g1) && SetValue(g1, f2, v2) == Some(g2)
    ensures ParseArgs([f1, v1, f2, v2] + rest, g) == ParseArgs(rest, g2)
  {
    assert [f1, v1, f2, v2] + rest == [f1, v1] + ([f2, v2] + rest);
    PairStep(f1, v1, [f2, v2] + rest, g, g1);
    PairStep(f2, v2, rest, g1, g2);
  }

  /**
   Reading back a built command gives the form, except for the fields the
   command does not carry, provided the input video is not itself a flag.
   */
  lemma CommandRoundTrip(f: Form, interpreter: string, scriptPath: string)
    requires !Flag(f.inputVideo)
    ensures ParseCommand(BuildCommand(f, interpreter, scriptPath)) == Some(Visible(f))
  {
    assert BuildCommand(f, interpreter, scriptPath)[2..] == Tail0(f);
    var w := Visible(f);
    // The form after each group, from the blank form to the visible one.
    var g0 := Blank;
    var g1 := g0.(outputFile := w.outputFile);
    var g2 := g1.(format := w.format);
    var g3 := g2.(duration := w.duration);
    var g4 := g3.(segments := w.segments);
    var g5 := g4.(panning := w.panning, panStrategy := w.panStrategy, panSpeed := w.panSpeed, panDistance := w.panDistance, easing := w.easing);
    var g6 := g5.(text := w.text, textStyle := w.textStyle);
    var g7 := g6.(logoPath := w.logoPath);
    var g8 := g7.(introVideoPath := w.introVideoPath, introVideoLength := w.introVideoLength);
    var g9 := g8.(introAudioPath := w.introAudioPath);
    ChunkStep(f.outputFile != "", "-o", f.outputFile, Tail1(f), g0, g1);
    ChunkStep(f.format != "", "-f", f.format, Tail2(f), g1, g2);
    ParseIntRoundTrip(f.duration);
    PairStep("-d", IntToString(f.duration), Tail3(f), g2, g3);
    ChunkStep(f.segments != "", "--segments", f.segments, Tail4(f), g3, g4);
    PanGroupStep(f, g4, g5);
    TextGroupStep(f, g5, g6);
    ChunkStep(f.logoPath != "", "--logo", f.logoPath, Tail7(f), g6, g7);
    IntroGroupStep(f, g7, g8);
    ChunkStep(f.introAudioPath != "", "--intro-audio", f.introAudioPath, Tail9(f), g8, g9);
    InputStep(f, g9, w);
  }

  lemma PanGroupStep(f: Form, g: Form, h: Form)
    requires h == g.(panning := f.panning, panStrategy := Visible(f).panStrategy, panSpeed := Visible(f).panSpeed,
                     panDistance := Visible(f).panDistance, easing := Visible(f).easing)
    requires !g.panning && g.panStrategy == "" && g.panSpeed == "" && g.panDistance == "" && g.easing == ""
    ensures ParseArgs(Tail4(f), g) == ParseArgs(Tail5(f), h)
  {
    if f.panning {
      PanStep(f, Tail5(f), g);
    } else {
      assert Tail4(f) == Tail5(f);
    }
  }

  lemma TextGroupStep(f: Form, g: Form, h: Form)
    requires h == g.(text := f.text, textStyle := Visible(f).textStyle)
    requires g.text == "" && g.textStyle == ""
    ensures ParseArgs(Tail5(f), g) == ParseArgs(Tail6(f), h)
  {
    if f.text != "" {
      TwoPairs("--text", f.text, "--text-style", f.textStyle, Tail6(f), g, g.(text := f.text), h);
    } else {
      assert Tail5(f) == Tail6(f);
    }
  }

  lemma IntroGroupStep(f: Form, g: Form, h: Form)
    requires h == g.(introVideoPath := f.introVideoPath, introVideoLength := Visible(f).introVideoLength)
    requires g.introVideoPath == "" && g.introVideoLength == 0
    ensures ParseArgs(Tail7(f), g) == ParseArgs(Tail8(f), h)
  {
    if f.introVideoPath != "" {
      ParseIntRoundTrip(f.introVideoLength);
      TwoPairs("--intro-video", f.introVideoPath, "--intro-video-length", IntToString(f.introVideoLength), Tail8(f), g, g.(introVideoPath := f.introVideoPath), h);
    } else {
      assert Tail7(f) == Tail8(f);
    }
  }

  /**
   Reading the command back tells which optional groups the form switched
   on, and which input video it names, as long as that video's path is not
   itself one of the script's flags.
   */
  lemma GroupsReadBack(f: Form, interpreter: string, scriptPath: string)
    requires !Flag(f.inputVideo)
    ensures ParseCommand(BuildCommand(f, interpreter, scriptPath)).Some?
    ensures var g := ParseCommand(BuildCommand(f, interpreter, scriptPath)).value;
      && g.panning == f.panning
      && (g.text != "") == (f.text != "")
      && (g.introVideoPath != "") == (f.introVideoPath != "")
      && g.inputVideo == f.inputVideo
  {
    CommandRoundTrip(f, interpreter, scriptPath);
  }

  // ---------------------------------------------------------------------
  // The suggested output name

  /** `os.path.join(dirname(f), splitext(basename(f))[0] + "_montage.mp4")`. */
  function SuggestedOutput(filename: string): string
  {
    JoinPath(Dirname(filename), SplitextRoot(Basename(filename)) + "_montage.mp4")
  }

  /** The suggestion sits in the input's directory and is named after the input's stem. */
  lemma SuggestionBesideInput(filename: string)
    ensures Dirname(SuggestedOutput(filename)) == Dirname(filename)
    ensures Basename(SuggestedOutput(filename)) == SplitextRoot(Basename(filename)) + "_montage.mp4"
  {
    var name := SplitextRoot(Basename(filename)) + "_montage.mp4";
    MontageNamePlain(filename);
    JoinSplitsBack(filename, name);
  }

  lemma MontageNamePlain(filename: string)
    ensures var name := SplitextRoot(Basename(filename)) + "_montage.mp4"; name != [] && '/' !in name
  {
    StemPlain(filename);
    SuffixPlain(SplitextRoot(Basename(filename)));
  }

  lemma StemPlain(filename: string)
    ensures '/' !in SplitextRoot(Basename(filename))
  {
    var base := Basename(filename);
    PrefixKeepsOut(base, |SplitextRoot(base)|, '/');
  }

  lemma SuffixPlain(stem: string)
    requires '/' !in stem
    ensures stem + "_montage.mp4" != [] && '/' !in stem + "_montage.mp4"
  {
    var suffix := "_montage.mp4";
    assert '/' !in suffix;
    OutOfBoth(stem, suffix, '/');
  }

  lemma PrefixKeepsOut(s: string, n: nat, c: char)
    requires n <= |s| && c !in s
    ensures c !in s[..n]
  {
    assert forall k :: 0 <= k < n ==> s[..n][k] == s[k];
  }

  lemma OutOfBoth(a: string, b: string, c: char)
    requires c !in a && c !in b
    ensures c !in a + b
  {
  }

  /**
   `browse_input` after the file dialog returns `filename` (`""` when
   cancelled): the input field takes the file, and the output field gets
   the suggestion only if it was empty.
   */
  function BrowseInput(f: Form, filename: string): (g: Form)
    ensures filename == "" ==> g == f
    ensures filename != "" ==> g.inputVideo == filename
    ensures filename != "" && f.outputFile == "" ==> g.outputFile == SuggestedOutput(filename)
    ensures f.outputFile != "" ==> g.outputFile == f.outputFile
    ensures g.(inputVideo := f.inputVideo, outputFile := f.outputFile) == f
  {
    if filename == "" then f
    else if f.outputFile == "" then f.(inputVideo := filename, outputFile := SuggestedOutput(filename))
    else f.(inputVideo := filename)
  }
}
