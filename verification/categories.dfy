/**
 Duration buckets of `categorize_video`, in the current revision and in
 the older one. The probed duration is a parameter instead of an ffprobe
 call.
 */
module Categories {

  datatype Category = Short | Medium | MediumLong | Long | Invalid

  /** The order of the valid buckets along the time axis. */
  function Rank(c: Category): nat
    requires c != Invalid
  {
    match c
    case Short => 0
    case Medium => 1
    case MediumLong => 2
    case Long => 3
  }

  /** `categorize_video`, current revision: five buckets covering 30 s to one hour. */
  function Categorize(duration: real): (c: Category)
    ensures c != Invalid <==> 30.0 <= duration <= 3600.0
    ensures c == Short <==> 30.0 <= duration <= 60.0
    ensures c == Medium <==> 60.0 < duration <= 300.0
    ensures c == MediumLong <==> 300.0 < duration <= 1800.0
    ensures c == Long <==> 1800.0 < duration <= 3600.0
  {
    if 30.0 <= duration <= 60.0 then Short
    else if 60.0 < duration <= 300.0 then Medium
    else if 300.0 < duration <= 1800.0 then MediumLong
    else if 1800.0 < duration <= 3600.0 then Long
    else Invalid
  }

  /** `categorize_video`, older revision: no medium-long bucket, so 5 to 30 minutes is rejected. */
  function CategorizeV1(duration: real): (c: Category)
    ensures c != MediumLong
    ensures c != Invalid <==> (30.0 <= duration <= 300.0 || 1800.0 <= duration <= 3600.0)
    ensures c == Short <==> 30.0 <= duration <= 60.0
    ensures c == Medium <==> 60.0 < duration <= 300.0
    ensures c == Long <==> 1800.0 <= duration <= 3600.0
  {
    if 30.0 <= duration <= 60.0 then Short
    else if 60.0 < duration <= 300.0 then Medium
    else if 1800.0 <= duration <= 3600.0 then Long
    else Invalid
  }

  /** A longer clip never lands in an earlier bucket. */
  lemma CategorizeMonotone(d1: real, d2: real)
    requires d1 <= d2
    requires Categorize(d1) != Invalid && Categorize(d2) != Invalid
    ensures Rank(Categorize(d1)) <= Rank(Categorize(d2))
  {
  }

  /** A longer clip never lands in an earlier bucket in the older revision either. */
  lemma CategorizeV1Monotone(d1: real, d2: real)
    requires d1 <= d2
    requires CategorizeV1(d1) != Invalid && CategorizeV1(d2) != Invalid
    ensures Rank(CategorizeV1(d1)) <= Rank(CategorizeV1(d2))
  {
  }

  /**
   How the two revisions relate: where the older one accepts a clip the
   current one puts it in the same bucket, except at exactly 30 minutes,
   which moved from long to medium-long; the current revision accepts
   strictly more, namely the open range between 5 and 30 minutes.
   */
  lemma RevisionsAgree(d: real)
    ensures CategorizeV1(d) != Invalid && d != 1800.0 ==> Categorize(d) == CategorizeV1(d)
    ensures d == 1800.0 ==> CategorizeV1(d) == Long && Categorize(d) == MediumLong
    ensures (CategorizeV1(d) == Invalid && Categorize(d) != Invalid) <==> 300.0 < d < 1800.0
    ensures Categorize(d) == Invalid ==> CategorizeV1(d) == Invalid
  {
  }
}
