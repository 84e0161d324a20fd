/** The `ASPECT_RATIOS` table both scripts share (video_editor_script.py:12-16). */
module Aspects {
  import opened Wrappers

  /** The social-media output formats, in the table's order. */
  datatype Aspect = InstagramReel | TikTok | InstagramSquare

  datatype Dimensions = Dimensions(width: int, height: int)

  /** The dictionary key of a format. */
  function Name(a: Aspect): string
  {
    match a
    case InstagramReel => "instagram_reel"
    case TikTok => "tiktok"
    case InstagramSquare => "instagram_square"
  }

  /** The output frame size of a format. */
  function Size(a: Aspect): (d: Dimensions)
    ensures 0 < d.width <= d.height
  {
    match a
    case InstagramReel => Dimensions(1080, 1920)
    case TikTok => Dimensions(1080, 1920)
    case InstagramSquare => Dimensions(1080, 1080)
  }

  /** True when the format is taller than wide (the script's `target_ratio < 1`). */
  predicate IsPortrait(a: Aspect) {
    Size(a).width < Size(a).height
  }

  /** The dictionary lookup `name in ASPECT_RATIOS`, returning the format it names. */
  function FromName(s: string): (r: Option<Aspect>)
    ensures r.Some? ==> Name(r.value) == s
    ensures r.None? ==> forall a: Aspect :: Name(a) != s
  {
    if s == "instagram_reel" then Some(InstagramReel)
    else if s == "tiktok" then Some(TikTok)
    else if s == "instagram_square" then Some(InstagramSquare)
    else None
  }

  /** Every format is found again under its own name. */
  lemma FromNameOfName(a: Aspect)
    ensures FromName(Name(a)) == Some(a)
  {
  }

  /** The two 9:16 formats differ only in name. */
  lemma ReelAndTikTokSameFrame()
    ensures Size(InstagramReel) == Size(TikTok)
    ensures IsPortrait(InstagramReel) && IsPortrait(TikTok) && !IsPortrait(InstagramSquare)
  {
  }
}
