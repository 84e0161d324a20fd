/**
 `parse_input_string` (identical in both revisions): the one-line form
 `"output name, format, video1, video2, ..."` of the command line.
 */
module InputString {
  import opened Wrappers
  import opened Strings
  import opened Aspects

  /**
   The three outcomes: fewer than three comma-separated parts
   (`(None, None, None)`), a format the table does not know
   (`(name, None, None)`), or the full triple.
   */
  datatype Parsed =
    | TooFewParts
    | UnknownFormat(outputName: string)
    | Request(outputName: string, format: Aspect, videos: seq<string>)

  /** Each piece stripped, in order; an elementwise helper whose ensures only unfold it for callers. */
  function StripAll(parts: seq<string>): (r: seq<string>)
    ensures |r| == |parts|
    ensures forall i :: 0 <= i < |parts| ==> r[i] == Strip(parts[i])
  {
    seq(|parts|, i requires 0 <= i < |parts| => Strip(parts[i]))
  }

  /**
   The whole input is stripped and split at every comma. With at least
   three parts, the first stripped is the output name, the second stripped
   and lower-cased must name a format, and the rest stripped are the videos.
   */
  function ParseInputString(input: string): (r: Parsed)
    ensures var parts := Split(Strip(input), ',');
      && (r.TooFewParts? <==> |parts| < 3)
      && (r.UnknownFormat? ==> r.outputName == Strip(parts[0]) && forall a: Aspect :: Name(a) != Lower(Strip(parts[1])))
      && (r.Request? ==>
        && r.outputName == Strip(parts[0])
        && Name(r.format) == Lower(Strip(parts[1]))
        && r.videos == StripAll(parts[2..])
        && |r.videos| >= 1)
  {
    var parts := Split(Strip(input), ',');
    if |parts| < 3 then TooFewParts
    else
      var outputName := Strip(parts[0]);
      match FromName(Lower(Strip(parts[1])))
      case None => UnknownFormat(outputName)
      case Some(format) => Request(outputName, format, StripAll(parts[2..]))
  }

  /** The string a user would write for a request. */
  function FormatInputString(outputName: string, format: Aspect, videos: seq<string>): string
  {
    Join([outputName, Name(format)] + videos, ',')
  }

  /** A piece that survives the round trip: no comma, no whitespace at its ends. */
  predicate CleanPiece(s: string) {
    ',' !in s && IsStripped(s)
  }

  lemma {:induction false} JoinStripped(parts: seq<string>)
    requires |parts| >= 2
    requires forall k :: 0 <= k < |parts| ==> CleanPiece(parts[k])
    ensures IsStripped(Join(parts, ','))
  {
    JoinStarts(parts);
    JoinEnds(parts);
  }

  lemma JoinStarts(parts: seq<string>)
    requires |parts| >= 2
    requires forall k :: 0 <= k < |parts| ==> CleanPiece(parts[k])
    ensures var s := Join(parts, ','); |s| >= 1 && !IsSpace(s[0])
  {
    var s := Join(parts, ',');
    assert s == parts[0] + [','] + Join(parts[1..], ',');
    if parts[0] == [] {
      assert s[0] == ',';
    } else {
      assert s[0] == parts[0][0];
    }
  }

  lemma {:induction false} JoinEnds(parts: seq<string>)
    requires |parts| >= 2
    requires forall k :: 0 <= k < |parts| ==> CleanPiece(parts[k])
    ensures var s := Join(parts, ','); |s| >= 1 && !IsSpace(s[|s| - 1])
    decreases |parts|
  {
    var s := Join(parts, ',');
    var rest := Join(parts[1..], ',');
    assert s == parts[0] + [','] + rest;
    if |parts| == 2 {
      assert rest == parts[1];
      if parts[1] == [] {
        assert s[|s| - 1] == ',';
      } else {
        assert s[|s| - 1] == parts[1][|parts[1]| - 1];
      }
    } else {
      JoinEnds(parts[1..]);
      assert s[|s| - 1] == rest[|rest| - 1];
    }
  }

  lemma NameIsLower(a: Aspect)
    ensures Lower(Name(a)) == Name(a)
    ensures CleanPiece(Name(a))
  {
  }

  /**
   Writing a request and parsing it gives the request back, provided no
   piece holds a comma or outer whitespace and there is at least one video.
   */
  lemma InputStringRoundTrip(outputName: string, format: Aspect, videos: seq<string>)
    requires |videos| >= 1
    requires CleanPiece(outputName)
    requires forall k :: 0 <= k < |videos| ==> CleanPiece(videos[k])
    ensures ParseInputString(FormatInputString(outputName, format, videos)) == Request(outputName, format, videos)
  {
    var parts := [outputName, Name(format)] + videos;
    PiecesOfFormatted(outputName, format, videos);
    assert parts[2..] == videos;
    StripAllClean(videos);
    StripOfStripped(outputName);
    NameIsLower(format);
    StripOfStripped(Name(format));
    FromNameOfName(format);
  }

  lemma PiecesOfFormatted(outputName: string, format: Aspect, videos: seq<string>)
    requires |videos| >= 1
    requires CleanPiece(outputName)
    requires forall k :: 0 <= k < |videos| ==> CleanPiece(videos[k])
    ensures Split(Strip(FormatInputString(outputName, format, videos)), ',') == [outputName, Name(format)] + videos
  {
    var parts := [outputName, Name(format)] + videos;
    NameIsLower(format);
    assert forall k :: 0 <= k < |parts| ==> CleanPiece(parts[k]);
    JoinStripped(parts);
    StripOfStripped(Join(parts, ','));
    SplitJoin(parts, ',');
  }

  lemma StripAllClean(pieces: seq<string>)
    requires forall k :: 0 <= k < |pieces| ==> CleanPiece(pieces[k])
    ensures StripAll(pieces) == pieces
  {
    forall k | 0 <= k < |pieces|
      ensures Strip(pieces[k]) == pieces[k]
    {
      StripOfStripped(pieces[k]);
    }
  }

  /** Letter case and outer spaces in the format field do not matter. */
  lemma FormatCaseInsensitive(input: string, a: Aspect)
    requires var parts := Split(Strip(input), ','); |parts| >= 3 && Lower(Strip(parts[1])) == Name(a)
    ensures ParseInputString(input).Request? && ParseInputString(input).format == a
  {
    FromNameOfName(a);
  }
}
