/**
 The direct-encoding fallback of the current revision
 (`fallback_create_output`): every segment file becomes an ffmpeg input,
 each input's video stream is scaled to the target frame, the scaled
 streams are concatenated and the caption filter is applied once. The
 graph is built as a typed value, rendered to `-filter_complex` text, and
 checked against the string the script assembles.
 */
module FilterGraph {
  import opened Strings
  import Aspects
  import TextOverlay

  /** `[input:v]scale=width:height[v<stream>]`. */
  datatype ScaleNode = ScaleNode(input: nat, width: int, height: int, stream: nat)

  /** The scale chains, the labels fed to `concat` in order, and the caption filter applied to `[outv]`. */
  datatype Graph = Graph(scales: seq<ScaleNode>, concatInputs: seq<nat>, overlay: string)

  /**
   Each input stream is scaled exactly once to the same frame, each scaled
   stream gets its own label, and `concat` reads every label once, in
   input order.
   */
  predicate WellFormed(g: Graph, inputs: nat, width: int, height: int) {
    && |g.scales| == inputs
    && (forall i :: 0 <= i < inputs ==> g.scales[i].input == i && g.scales[i].width == width && g.scales[i].height == height)
    && (forall i, j :: 0 <= i < j < inputs ==> g.scales[i].stream != g.scales[j].stream)
    && |g.concatInputs| == inputs
    && (forall i :: 0 <= i < inputs ==> g.concatInputs[i] == g.scales[i].stream)
  }

  /** The graph the fallback builds for `n` segment files and a `width`x`height` frame. */
  function BuildGraph(n: nat, width: int, height: int, overlay: string): (g: Graph)
    ensures WellFormed(g, n, width, height)
    ensures g.overlay == overlay
  {
    Graph(seq(n, i requires 0 <= i < n => ScaleNode(i, width, height, i)),
          seq(n, i requires 0 <= i < n => i),
          overlay)
  }

  function StreamLabel(stream: nat): string
  {
    "[v" + NatToString(stream) + "]"
  }

  function RenderScale(node: ScaleNode): string
  {
    "[" + NatToString(node.input) + ":v]scale=" + IntToString(node.width) + ":" + IntToString(node.height) + StreamLabel(node.stream)
  }

  /** One rendered scale chain per node, in order; an elementwise helper whose ensures only unfold it for callers. */
  function RenderScales(nodes: seq<ScaleNode>): (texts: seq<string>)
    ensures |texts| == |nodes|
    ensures forall i :: 0 <= i < |nodes| ==> texts[i] == RenderScale(nodes[i])
  {
    seq(|nodes|, i requires 0 <= i < |nodes| => RenderScale(nodes[i]))
  }

  /** The labels written back to back, `[v0][v1]...`. */
  function RenderLabels(labels: seq<nat>): string
  {
    if labels == [] then "" else StreamLabel(labels[0]) + RenderLabels(labels[1..])
  }

  function ConcatChain(g: Graph): string
  {
    RenderLabels(g.concatInputs) + "concat=n=" + NatToString(|g.concatInputs|) + ":v=1:a=0[outv]"
  }

  function OverlayChain(g: Graph): string
  {
    "[outv]" + g.overlay + "[out]"
  }

  /** The chains of the graph in the order they are written. */
  function Chains(g: Graph): (chains: seq<string>)
    ensures |chains| == |g.scales| + 2
  {
    RenderScales(g.scales) + [ConcatChain(g), OverlayChain(g)]
  }

  /** The `-filter_complex` text: the chains separated by semicolons. */
  function Render(g: Graph): string
  {
    Join(Chains(g), ';')
  }

  /**
   The string as `fallback_create_output` assembles it: the scale chains
   joined with `;`, then `;`, the labels and the `concat` filter, then
   `;[outv]<caption filter>[out]`.
   */
  function FallbackFilterComplex(n: nat, width: int, height: int, overlay: string): string
  {
    Join(ScriptNodes(n, width, height), ';') + ";" + Concat(ScriptLabels(n)) + "concat=n=" + NatToString(n) + ":v=1:a=0[outv]" + ";[outv]" + overlay + "[out]"
  }

  /** The script's `filter_complex` list. */
  function ScriptNodes(n: nat, width: int, height: int): seq<string>
  {
    seq(n, i requires 0 <= i < n => "[" + NatToString(i) + ":v]scale=" + IntToString(width) + ":" + IntToString(height) + "[v" + NatToString(i) + "]")
  }

  /** The script's list of concat input labels. */
  function ScriptLabels(n: nat): seq<string>
  {
    seq(n, i requires 0 <= i < n => "[v" + NatToString(i) + "]")
  }

  /** `''.join(parts)`. */
  function Concat(parts: seq<string>): string
  {
    if parts == [] then "" else parts[0] + Concat(parts[1..])
  }

  lemma {:induction false} JoinSnoc(parts: seq<string>, last: string, sep: char)
    requires |parts| >= 1
    ensures Join(parts + [last], sep) == Join(parts, sep) + [sep] + last
  {
    if |parts| == 1 {
      assert (parts + [last])[1..] == [last];
    } else {
      assert (parts + [last])[1..] == parts[1..] + [last];
      JoinSnoc(parts[1..], last, sep);
    }
  }

  lemma {:induction false} LabelsAsWritten(labels: seq<nat>)
    ensures RenderLabels(labels) == Concat(seq(|labels|, i requires 0 <= i < |labels| => StreamLabel(labels[i])))
  {
    if labels != [] {
      LabelsAsWritten(labels[1..]);
      var all := seq(|labels|, i requires 0 <= i < |labels| => StreamLabel(labels[i]));
      assert all[1..] == seq(|labels[1..]|, i requires 0 <= i < |labels[1..]| => StreamLabel(labels[1..][i]));
    }
  }

  /**
   For one or more segment files, rendering the typed graph gives exactly
   the text the script builds. (With none, the script's string would begin
   with an empty chain; the montage aborts before reaching it.)
   */
  lemma RenderMatchesScript(n: nat, width: int, height: int, overlay: string)
    requires n >= 1
    ensures Render(BuildGraph(n, width, height, overlay)) == FallbackFilterComplex(n, width, height, overlay)
  {
    var g := BuildGraph(n, width, height, overlay);
    var a := Join(ScriptNodes(n, width, height), ';');
    var l := Concat(ScriptLabels(n));
    var tail := "concat=n=" + NatToString(n) + ":v=1:a=0[outv]";
    RenderAsJoin(g);
    ScalesAsWritten(n, width, height);
    assert Join(RenderScales(g.scales), ';') == a;
    ConcatAsWritten(n, width, height, overlay);
    assert Render(g) == a + [';'] + (l + tail) + [';'] + ("[outv]" + overlay + "[out]");
    Reassociate(a, l, tail, overlay);
  }

  lemma RenderAsJoin(g: Graph)
    requires |g.scales| >= 1
    ensures Render(g) == Join(RenderScales(g.scales), ';') + [';'] + ConcatChain(g) + [';'] + OverlayChain(g)
  {
    JoinTwoMore(RenderScales(g.scales), ConcatChain(g), OverlayChain(g), ';');
  }

  lemma Reassociate(a: string, l: string, tail: string, overlay: string)
    ensures a + [';'] + (l + tail) + [';'] + ("[outv]" + overlay + "[out]") == a + ";" + l + tail + ";[outv]" + overlay + "[out]"
  {
  }

  /** The concat chain is the script's label string followed by the `concat` filter. */
  lemma ConcatAsWritten(n: nat, width: int, height: int, overlay: string)
    ensures ConcatChain(BuildGraph(n, width, height, overlay)) == Concat(ScriptLabels(n)) + ("concat=n=" + NatToString(n) + ":v=1:a=0[outv]")
  {
    var g := BuildGraph(n, width, height, overlay);
    LabelsAsWritten(g.concatInputs);
    assert seq(n, i requires 0 <= i < n => StreamLabel(g.concatInputs[i])) == ScriptLabels(n);
  }

  lemma ScalesAsWritten(n: nat, width: int, height: int)
    ensures RenderScales(seq(n, i requires 0 <= i < n => ScaleNode(i, width, height, i))) == ScriptNodes(n, width, height)
  {
    var scales := RenderScales(seq(n, i requires 0 <= i < n => ScaleNode(i, width, height, i)));
    var nodes := ScriptNodes(n, width, height);
    forall i | 0 <= i < n
      ensures scales[i] == nodes[i]
    {
      var a := "[" + NatToString(i) + ":v]scale=" + IntToString(width) + ":" + IntToString(height);
      assert scales[i] == a + StreamLabel(i);
      assert nodes[i] == a + "[v" + NatToString(i) + "]";
    }
  }

  lemma JoinTwoMore(parts: seq<string>, b: string, c: string, sep: char)
    requires |parts| >= 1
    ensures Join(parts + [b, c], sep) == Join(parts, sep) + [sep] + b + [sep] + c
  {
    JoinSnoc(parts, b, sep);
    assert parts + [b, c] == (parts + [b]) + [c];
    JoinSnoc(parts + [b], c, sep);
  }

  lemma NoSemicolonInNumber(n: nat)
    ensures ';' !in NatToString(n)
  {
    var s := NatToString(n);
    forall k | 0 <= k < |s|
      ensures s[k] != ';'
    {
      assert IsDigit(s[k]);
    }
  }

  lemma NoSemicolonInInt(i: int)
    ensures ';' !in IntToString(i)
  {
    if i < 0 {
      NoSemicolonInNumber(-i);
    } else {
      NoSemicolonInNumber(i);
    }
  }

  lemma {:induction false} NoSemicolonInLabels(labels: seq<nat>)
    ensures ';' !in RenderLabels(labels)
  {
    if labels != [] {
      NoSemicolonInNumber(labels[0]);
      NoSemicolonInLabels(labels[1..]);
    }
  }

  lemma NoSemicolonInScale(node: ScaleNode)
    ensures ';' !in RenderScale(node)
  {
    NoSemicolonInNumber(node.input);
    NoSemicolonInInt(node.width);
    NoSemicolonInInt(node.height);
    NoSemicolonInNumber(node.stream);
  }

  lemma NoSemicolonInConcat(g: Graph)
    ensures ';' !in ConcatChain(g)
  {
    NoSemicolonInLabels(g.concatInputs);
    NoSemicolonInNumber(|g.concatInputs|);
  }

  lemma NoSemicolonInChains(g: Graph)
    requires ';' !in g.overlay
    ensures forall k :: 0 <= k < |Chains(g)| ==> ';' !in Chains(g)[k]
  {
    var chains := Chains(g);
    var n := |g.scales|;
    forall k | 0 <= k < |chains|
      ensures ';' !in chains[k]
    {
      if k < n {
        NoSemicolonInScale(g.scales[k]);
        assert chains[k] == RenderScale(g.scales[k]);
      } else if k == n {
        NoSemicolonInConcat(g);
      }
    }
  }

  /**
   When the caption filter contains no `;`, splitting the rendered text at
   semicolons recovers the chains: one per input, then the concat, then the
   caption.
   */
  lemma ChainsRecovered(n: nat, width: int, height: int, overlay: string)
    requires ';' !in overlay
    ensures var g := BuildGraph(n, width, height, overlay);
      Split(Render(g), ';') == Chains(g) && |Split(Render(g), ';')| == n + 2
  {
    var g := BuildGraph(n, width, height, overlay);
    NoSemicolonInChains(g);
    SplitJoin(Chains(g), ';');
  }

  /** `['-i', f0, '-i', f1, ...]`. */
  function InputArgs(files: seq<string>): (args: seq<string>)
    ensures |args| == 2 * |files|
    ensures forall i :: 0 <= i < |files| ==> args[2 * i] == "-i" && args[2 * i + 1] == files[i]
  {
    if files == [] then []
    else
      var rest := InputArgs(files[1..]);
      InputArgsStep(files, rest);
      ["-i", files[0]] + rest
  }

  lemma InputArgsStep(files: seq<string>, rest: seq<string>)
    requires files != []
    requires |rest| == 2 * (|files| - 1)
    requires forall i :: 0 <= i < |files| - 1 ==> rest[2 * i] == "-i" && rest[2 * i + 1] == files[1..][i]
    ensures var args := ["-i", files[0]] + rest;
      forall i :: 0 <= i < |files| ==> args[2 * i] == "-i" && args[2 * i + 1] == files[i]
  {
    var args := ["-i", files[0]] + rest;
    forall i | 1 <= i < |files|
      ensures args[2 * i] == "-i" && args[2 * i + 1] == files[i]
    {
      assert args[2 * i] == rest[2 * (i - 1)];
      assert args[2 * i + 1] == rest[2 * (i - 1) + 1];
    }
  }

  /**
   The fallback's ffmpeg argv: the segment files as inputs in order, the
   rendered graph, the `[out]` stream encoded with libx264, cut to the
   requested duration.
   */
  function FallbackCommand(files: seq<string>, width: int, height: int, overlay: string, duration: int, output: string): (argv: seq<string>)
    ensures |argv| == 2 * |files| + 13
    ensures argv[..2] == ["ffmpeg", "-y"]
    ensures forall i :: 0 <= i < |files| ==> argv[2 + 2 * i] == "-i" && argv[3 + 2 * i] == files[i]
    ensures argv[2 + 2 * |files|..] == ["-filter_complex", Render(BuildGraph(|files|, width, height, overlay)), "-map", "[out]",
                                        "-c:v", "libx264", "-preset", "medium", "-t", IntToString(duration), output]
  {
    var tail := ["-filter_complex", Render(BuildGraph(|files|, width, height, overlay)), "-map", "[out]",
                 "-c:v", "libx264", "-preset", "medium", "-t", IntToString(duration), output];
    ArgvShape(files, InputArgs(files), tail);
    ["ffmpeg", "-y"] + InputArgs(files) + tail
  }

  /** `['ffmpeg', '-y']`, the input pairs, then the rest of the command. */
  lemma ArgvShape(files: seq<string>, inputs: seq<string>, tail: seq<string>)
    requires |inputs| == 2 * |files|
    requires forall i :: 0 <= i < |files| ==> inputs[2 * i] == "-i" && inputs[2 * i + 1] == files[i]
    ensures var argv := ["ffmpeg", "-y"] + inputs + tail;
      && |argv| == 2 * |files| + 2 + |tail|
      && argv[..2] == ["ffmpeg", "-y"]
      && (forall i :: 0 <= i < |files| ==> argv[2 + 2 * i] == "-i" && argv[3 + 2 * i] == files[i])
      && argv[2 + 2 * |files|..] == tail
  {
    var head := ["ffmpeg", "-y"] + inputs;
    DropPrefix(head, tail);
    forall i | 0 <= i < |files|
      ensures (head + tail)[2 + 2 * i] == "-i" && (head + tail)[3 + 2 * i] == files[i]
    {
      assert (head + tail)[2 + 2 * i] == inputs[2 * i];
      assert (head + tail)[3 + 2 * i] == inputs[2 * i + 1];
    }
  }

  lemma DropPrefix(a: seq<string>, b: seq<string>)
    ensures (a + b)[|a|..] == b
    ensures (a + b)[..|a|] == a
  {
  }

  /**
   The command `fallback_create_output` runs for a format and a requested
   duration: its filter graph is the script's string with the caption
   filter of `create_text_overlay_filter(duration)`, and splitting it at
   semicolons gives one scale chain per segment, the concat, and last the
   caption chain `[outv]<captions>[out]`.
   */
  lemma FallbackWithCaptions(files: seq<string>, aspect: Aspects.Aspect, duration: int, output: string, num: real -> string)
    requires |files| >= 1
    requires forall x :: ';' !in num(x)
    ensures var size := Aspects.Size(aspect);
      var overlay := TextOverlay.TextOverlayFilter(duration, num);
      var argv := FallbackCommand(files, size.width, size.height, overlay, duration, output);
      var graph := argv[3 + 2 * |files|];
      && graph == FallbackFilterComplex(|files|, size.width, size.height, overlay)
      && |Split(graph, ';')| == |files| + 2
      && Split(graph, ';')[|files| + 1] == "[outv]" + overlay + "[out]"
  {
    var size := Aspects.Size(aspect);
    TextOverlay.OverlayHasNoSemicolon(duration, num);
    FallbackGraph(files, size.width, size.height, TextOverlay.TextOverlayFilter(duration, num), duration, output);
  }

  /** The graph argument of the fallback command, for any caption filter without `;`. */
  lemma FallbackGraph(files: seq<string>, width: int, height: int, overlay: string, duration: int, output: string)
    requires |files| >= 1
    requires ';' !in overlay
    ensures var graph := FallbackCommand(files, width, height, overlay, duration, output)[3 + 2 * |files|];
      && graph == FallbackFilterComplex(|files|, width, height, overlay)
      && |Split(graph, ';')| == |files| + 2
      && Split(graph, ';')[|files| + 1] == "[outv]" + overlay + "[out]"
  {
    GraphArgument(files, width, height, overlay, duration, output);
    RenderMatchesScript(|files|, width, height, overlay);
    CaptionChainLast(|files|, width, height, overlay);
  }

  /** The argument after `-filter_complex` is the rendered graph. */
  lemma GraphArgument(files: seq<string>, width: int, height: int, overlay: string, duration: int, output: string)
    ensures FallbackCommand(files, width, height, overlay, duration, output)[3 + 2 * |files|] == Render(BuildGraph(|files|, width, height, overlay))
  {
    var argv := FallbackCommand(files, width, height, overlay, duration, output);
    assert argv[3 + 2 * |files|] == argv[2 + 2 * |files|..][1];
  }

  /** The last chain split from the rendered graph is the caption chain. */
  lemma CaptionChainLast(n: nat, width: int, height: int, overlay: string)
    requires ';' !in overlay
    ensures var parts := Split(Render(BuildGraph(n, width, height, overlay)), ';');
      |parts| == n + 2 && parts[n + 1] == "[outv]" + overlay + "[out]"
  {
    var g := BuildGraph(n, width, height, overlay);
    ChainsRecovered(n, width, height, overlay);
    assert Chains(g)[n + 1] == OverlayChain(g);
  }

  /** Reading every second argument after `-y` back gives the segment files in order. */
  lemma InputsRecovered(files: seq<string>, width: int, height: int, overlay: string, duration: int, output: string)
    ensures var argv := FallbackCommand(files, width, height, overlay, duration, output);
      seq(|files|, i requires 0 <= i < |files| => argv[3 + 2 * i]) == files
  {
    SecondArguments(files, FallbackCommand(files, width, height, overlay, duration, output));
  }

  lemma SecondArguments(files: seq<string>, argv: seq<string>)
    requires |argv| >= 2 * |files| + 2
    requires forall i :: 0 <= i < |files| ==> argv[3 + 2 * i] == files[i]
    ensures seq(|files|, i requires 0 <= i < |files| => argv[3 + 2 * i]) == files
  {
  }
}
