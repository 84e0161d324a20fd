/**
 `validate_inputs`: sorts the input paths into duration categories and
 rejects the batch on a missing file, on any clip outside the accepted
 ranges, or on fewer than three clips that are all short. The file-system
 check and the ffprobe duration of every path are carried by a `Probe`.
 Both revisions share this code; they differ only in the categorizer.
 */
module Validation {
  import opened Wrappers
  import opened Categories

  datatype Revision = Current | V1

  function CategoryOf(rev: Revision, duration: real): Category
  {
    if rev == Current then Categorize(duration) else CategorizeV1(duration)
  }

  /** What `os.path.exists` and ffprobe report for one input path. */
  datatype Probe = Probe(path: string, found: bool, duration: real)

  /** One entry of the `categorized_videos` dictionary, in insertion order. */
  datatype Group = Group(category: Category, paths: seq<string>)

  function Cat(rev: Revision, p: Probe): Category
  {
    CategoryOf(rev, p.duration)
  }

  // ---------------------------------------------------------------------
  // Reference definitions

  /** The input paths of category `c`, in input order. */
  function PathsIn(rev: Revision, probes: seq<Probe>, c: Category): seq<string>
  {
    if probes == [] then []
    else
      var last := probes[|probes| - 1];
      PathsIn(rev, probes[..|probes| - 1], c) + (if Cat(rev, last) == c then [last.path] else [])
  }

  function AllPaths(probes: seq<Probe>): seq<string>
  {
    seq(|probes|, i requires 0 <= i < |probes| => probes[i].path)
  }

  predicate AnyMissing(probes: seq<Probe>) {
    exists i :: 0 <= i < |probes| && !probes[i].found
  }

  predicate AnyInvalid(rev: Revision, probes: seq<Probe>) {
    exists i :: 0 <= i < |probes| && Cat(rev, probes[i]) == Invalid
  }

  /** A non-empty batch of fewer than three clips, all of them short. */
  predicate TooFewShortOnly(rev: Revision, probes: seq<Probe>) {
    0 < |probes| < 3 && forall i :: 0 <= i < |probes| ==> Cat(rev, probes[i]) == Short
  }

  /** `all_videos` in `main`: the dictionary's lists concatenated in insertion order. */
  function Flatten(groups: seq<Group>): seq<string>
  {
    if groups == [] then [] else groups[0].paths + Flatten(groups[1..])
  }

  predicate DistinctCategories(groups: seq<Group>) {
    forall i, j :: 0 <= i < j < |groups| ==> groups[i].category != groups[j].category
  }

  /** Each entry holds exactly its category's paths, in input order, and is not empty. */
  predicate ListsMatch(rev: Revision, probes: seq<Probe>, groups: seq<Group>) {
    forall i :: 0 <= i < |groups| ==> groups[i].paths == PathsIn(rev, probes, groups[i].category) && groups[i].paths != []
  }

  /** Every input's category has an entry. */
  predicate Covers(rev: Revision, probes: seq<Probe>, groups: seq<Group>) {
    forall k :: 0 <= k < |probes| ==> Find(groups, Cat(rev, probes[k])) >= 0
  }

  /** The dictionary invariants: one entry per category present, each holding exactly that category's paths in input order. */
  predicate Partitions(rev: Revision, probes: seq<Probe>, groups: seq<Group>) {
    && DistinctCategories(groups)
    && ListsMatch(rev, probes, groups)
    && Covers(rev, probes, groups)
    && multiset(Flatten(groups)) == multiset(AllPaths(probes))
  }

  /** The position of the first probe of category `c`, or `|probes|` when there is none. */
  function FirstIndex(rev: Revision, probes: seq<Probe>, c: Category): (f: nat)
    ensures f <= |probes|
    ensures f < |probes| ==> Cat(rev, probes[f]) == c
    ensures forall k :: 0 <= k < f ==> Cat(rev, probes[k]) != c
  {
    if probes == [] then 0
    else
      var init := probes[..|probes| - 1];
      var f := FirstIndex(rev, init, c);
      assert forall k :: 0 <= k < |init| ==> init[k] == probes[k];
      if f < |init| then f
      else if Cat(rev, probes[|probes| - 1]) == c then |init|
      else |probes|
  }

  /** The entries appear in the order in which their categories are first seen. */
  predicate FirstSeenOrder(rev: Revision, probes: seq<Probe>, groups: seq<Group>) {
    forall i, j :: 0 <= i < j < |groups| ==>
      FirstIndex(rev, probes, groups[i].category) < FirstIndex(rev, probes, groups[j].category)
  }

  // ---------------------------------------------------------------------
  // The dictionary as the loop builds it

  /** `category in categorized_videos`: the position of the entry, or -1. */
  function Find(groups: seq<Group>, c: Category): (i: int)
    ensures -1 <= i < |groups|
    ensures 0 <= i ==> groups[i].category == c
    ensures i < 0 ==> forall k :: 0 <= k < |groups| ==> groups[k].category != c
  {
    if groups == [] then -1
    else if groups[0].category == c then 0
    else
      var i := Find(groups[1..], c);
      if i < 0 then -1 else i + 1
  }

  /** `categorized_videos.setdefault(c, []).append(p)`. */
  function AddPath(groups: seq<Group>, c: Category, p: string): seq<Group>
  {
    var i := Find(groups, c);
    if i < 0 then groups + [Group(c, [p])]
    else groups[i := Group(c, groups[i].paths + [p])]
  }

  lemma {:induction false} FlattenAppend(a: seq<Group>, b: seq<Group>)
    ensures Flatten(a + b) == Flatten(a) + Flatten(b)
  {
    if a != [] {
      assert (a + b)[1..] == a[1..] + b;
      FlattenAppend(a[1..], b);
    } else {
      assert a + b == b;
    }
  }

  lemma {:induction false} FlattenSplit(groups: seq<Group>, i: nat)
    requires i < |groups|
    ensures Flatten(groups) == Flatten(groups[..i]) + groups[i].paths + Flatten(groups[i + 1..])
  {
    if i > 0 {
      FlattenSplit(groups[1..], i - 1);
      assert groups[1..][..i - 1] == groups[..i][1..];
      assert groups[1..][i..] == groups[i + 1..];
    }
  }

  lemma {:induction false} PathsInAbsent(rev: Revision, probes: seq<Probe>, c: Category)
    requires forall k :: 0 <= k < |probes| ==> Cat(rev, probes[k]) != c
    ensures PathsIn(rev, probes, c) == []
  {
    if probes != [] {
      PathsInAbsent(rev, probes[..|probes| - 1], c);
    }
  }

  /** Every path listed under `c` comes from a probe of category `c`. */
  lemma {:induction false} PathsInPresent(rev: Revision, probes: seq<Probe>, c: Category)
    requires PathsIn(rev, probes, c) != []
    ensures exists k :: 0 <= k < |probes| && Cat(rev, probes[k]) == c
  {
    if forall k :: 0 <= k < |probes| ==> Cat(rev, probes[k]) != c {
      PathsInAbsent(rev, probes, c);
    }
  }

  lemma {:induction false} PathsInSnoc(rev: Revision, init: seq<Probe>, last: Probe, c: Category)
    ensures PathsIn(rev, init + [last], c) == PathsIn(rev, init, c) + (if Cat(rev, last) == c then [last.path] else [])
  {
    assert (init + [last])[..|init|] == init;
  }

  lemma {:induction false} DistinctAfterAdd(before: seq<Group>, c: Category, p: string)
    requires DistinctCategories(before)
    ensures DistinctCategories(AddPath(before, c, p))
  {
  }

  lemma {:induction false} MultisetAfterAdd(before: seq<Group>, c: Category, p: string)
    ensures multiset(Flatten(AddPath(before, c, p))) == multiset(Flatten(before)) + multiset{p}
  {
    var i := Find(before, c);
    if i < 0 {
      FlattenAppend(before, [Group(c, [p])]);
      assert Flatten([Group(c, [p])]) == [p] + [];
    } else {
      MultisetAfterExtend(before, i, p);
    }
  }

  lemma MultisetAfterExtend(before: seq<Group>, i: nat, p: string)
    requires i < |before|
    ensures var after := before[i := Group(before[i].category, before[i].paths + [p])];
      multiset(Flatten(after)) == multiset(Flatten(before)) + multiset{p}
  {
    var after := before[i := Group(before[i].category, before[i].paths + [p])];
    FlattenSplit(before, i);
    FlattenSplit(after, i);
    assert after[..i] == before[..i];
    assert after[i + 1..] == before[i + 1..];
    var x, y := Flatten(before[..i]), Flatten(before[i + 1..]);
    var mid := before[i].paths;
    assert Flatten(after) == x + (mid + [p]) + y;
    assert Flatten(before) == x + mid + y;
    calc {
      multiset(Flatten(after));
      multiset(x) + (multiset(mid) + multiset{p}) + multiset(y);
      multiset(x) + multiset(mid) + multiset(y) + multiset{p};
    }
  }

  lemma {:induction false} ListsAfterAdd(rev: Revision, init: seq<Probe>, last: Probe, before: seq<Group>)
    requires DistinctCategories(before) && ListsMatch(rev, init, before) && Covers(rev, init, before)
    ensures ListsMatch(rev, init + [last], AddPath(before, Cat(rev, last), last.path))
  {
    var probes := init + [last];
    var c := Cat(rev, last);
    var groups := AddPath(before, c, last.path);
    var i := Find(before, c);
    forall j | 0 <= j < |groups|
      ensures groups[j].paths == PathsIn(rev, probes, groups[j].category) && groups[j].paths != []
    {
      var cj := groups[j].category;
      PathsInSnoc(rev, init, last, cj);
      if i < 0 && j == |before| {
        PathsInAbsent(rev, init, c);
        assert groups[j] == Group(c, [last.path]);
      } else if j == i {
        assert groups[j] == Group(c, before[i].paths + [last.path]);
      } else {
        assert groups[j] == before[j];
        assert cj != c;
      }
    }
  }

  lemma {:induction false} CoversAfterAdd(rev: Revision, init: seq<Probe>, last: Probe, before: seq<Group>)
    requires Covers(rev, init, before)
    ensures Covers(rev, init + [last], AddPath(before, Cat(rev, last), last.path))
  {
    var probes := init + [last];
    var c := Cat(rev, last);
    var groups := AddPath(before, c, last.path);
    assert |groups| >= |before|;
    assert forall j :: 0 <= j < |before| ==> groups[j].category == before[j].category;
    forall k | 0 <= k < |probes|
      ensures Find(groups, Cat(rev, probes[k])) >= 0
    {
      if k < |init| {
        assert probes[k] == init[k];
        assert groups[Find(before, Cat(rev, init[k]))].category == Cat(rev, probes[k]);
      } else {
        if Find(before, c) < 0 {
          assert groups[|before|].category == c;
        } else {
          assert groups[Find(before, c)].category == c;
        }
      }
    }
  }

  /** A category already present among the first probes keeps its first position when one more probe arrives. */
  lemma FirstIndexSnoc(rev: Revision, init: seq<Probe>, last: Probe, c: Category)
    ensures FirstIndex(rev, init, c) < |init| ==> FirstIndex(rev, init + [last], c) == FirstIndex(rev, init, c)
    ensures FirstIndex(rev, init, c) == |init| && Cat(rev, last) == c ==> FirstIndex(rev, init + [last], c) == |init|
  {
    assert (init + [last])[..|init|] == init;
  }

  /** Every category with an entry was first seen among the earlier probes, and stays first seen there. */
  lemma EntriesSeenBefore(rev: Revision, init: seq<Probe>, last: Probe, before: seq<Group>)
    requires ListsMatch(rev, init, before)
    ensures forall j :: 0 <= j < |before| ==>
      FirstIndex(rev, init + [last], before[j].category) == FirstIndex(rev, init, before[j].category) < |init|
  {
    forall j | 0 <= j < |before|
      ensures FirstIndex(rev, init + [last], before[j].category) == FirstIndex(rev, init, before[j].category) < |init|
    {
      var cj := before[j].category;
      PathsInPresent(rev, init, cj);
      var k :| 0 <= k < |init| && Cat(rev, init[k]) == cj;
      FirstIndexSnoc(rev, init, last, cj);
    }
  }

  /** A category without an entry is first seen at the newest probe. */
  lemma NewCategorySeenLast(rev: Revision, init: seq<Probe>, last: Probe, before: seq<Group>)
    requires Covers(rev, init, before)
    requires Find(before, Cat(rev, last)) < 0
    ensures FirstIndex(rev, init + [last], Cat(rev, last)) == |init|
  {
    FirstIndexSnoc(rev, init, last, Cat(rev, last));
  }

  /** Extending an existing entry leaves the categories, and so their order, as they were. */
  lemma OrderAfterExtend(rev: Revision, init: seq<Probe>, last: Probe, before: seq<Group>)
    requires ListsMatch(rev, init, before) && FirstSeenOrder(rev, init, before)
    requires Find(before, Cat(rev, last)) >= 0
    ensures FirstSeenOrder(rev, init + [last], AddPath(before, Cat(rev, last), last.path))
  {
    var groups := AddPath(before, Cat(rev, last), last.path);
    EntriesSeenBefore(rev, init, last, before);
    assert forall j :: 0 <= j < |groups| ==> groups[j].category == before[j].category;
  }

  /** A new entry goes last, and its category is the last one first seen. */
  lemma OrderAfterAppend(rev: Revision, init: seq<Probe>, last: Probe, before: seq<Group>)
    requires ListsMatch(rev, init, before) && Covers(rev, init, before) && FirstSeenOrder(rev, init, before)
    requires Find(before, Cat(rev, last)) < 0
    ensures FirstSeenOrder(rev, init + [last], AddPath(before, Cat(rev, last), last.path))
  {
    var c := Cat(rev, last);
    var groups := AddPath(before, c, last.path);
    EntriesSeenBefore(rev, init, last, before);
    NewCategorySeenLast(rev, init, last, before);
    assert groups == before + [Group(c, [last.path])];
  }

  lemma OrderAfterAdd(rev: Revision, init: seq<Probe>, last: Probe, before: seq<Group>)
    requires ListsMatch(rev, init, before) && Covers(rev, init, before) && FirstSeenOrder(rev, init, before)
    ensures FirstSeenOrder(rev, init + [last], AddPath(before, Cat(rev, last), last.path))
  {
    if Find(before, Cat(rev, last)) < 0 {
      OrderAfterAppend(rev, init, last, before);
    } else {
      OrderAfterExtend(rev, init, last, before);
    }
  }

  /** One more probe keeps the entries in first-seen order. */
  lemma GroupedOrderStep(rev: Revision, probes: seq<Probe>, before: seq<Group>)
    requires probes != []
    requires Partitions(rev, probes[..|probes| - 1], before) && FirstSeenOrder(rev, probes[..|probes| - 1], before)
    ensures FirstSeenOrder(rev, probes, AddPath(before, Cat(rev, probes[|probes| - 1]), probes[|probes| - 1].path))
  {
    assert probes == probes[..|probes| - 1] + [probes[|probes| - 1]];
    OrderAfterAdd(rev, probes[..|probes| - 1], probes[|probes| - 1], before);
  }

  lemma {:induction false} GroupedStep(rev: Revision, probes: seq<Probe>, before: seq<Group>)
    requires probes != []
    requires Partitions(rev, probes[..|probes| - 1], before)
    ensures Partitions(rev, probes, AddPath(before, Cat(rev, probes[|probes| - 1]), probes[|probes| - 1].path))
  {
    var init := probes[..|probes| - 1];
    var last := probes[|probes| - 1];
    assert probes == init + [last];
    PartitionsAfterAdd(rev, init, last, before);
  }

  lemma {:induction false} PartitionsAfterAdd(rev: Revision, init: seq<Probe>, last: Probe, before: seq<Group>)
    requires Partitions(rev, init, before)
    ensures Partitions(rev, init + [last], AddPath(before, Cat(rev, last), last.path))
  {
    var after := AddPath(before, Cat(rev, last), last.path);
    assert AllPaths(init + [last]) == AllPaths(init) + [last.path];
    DistinctAfterAdd(before, Cat(rev, last), last.path);
    MultisetAfterAdd(before, Cat(rev, last), last.path);
    ListsAfterAdd(rev, init, last, before);
    CoversAfterAdd(rev, init, last, before);
  }

  /** The dictionary after the loop has seen every probe (all files present). */
  function Grouped(rev: Revision, probes: seq<Probe>): (groups: seq<Group>)
    ensures Partitions(rev, probes, groups)
    ensures FirstSeenOrder(rev, probes, groups)
  {
    if probes == [] then [] else
      var before := Grouped(rev, probes[..|probes| - 1]);
      GroupedStep(rev, probes, before);
      GroupedOrderStep(rev, probes, before);
      AddPath(before, Cat(rev, probes[|probes| - 1]), probes[|probes| - 1].path)
  }

  /** The loop of `validate_inputs`: stops with `None` at the first missing file. */
  function Scan(rev: Revision, probes: seq<Probe>): (r: Option<seq<Group>>)
    ensures r.None? <==> AnyMissing(probes)
    ensures r.Some? ==> r.value == Grouped(rev, probes)
  {
    if probes == [] then Some([]) else
      var init := probes[..|probes| - 1];
      var last := probes[|probes| - 1];
      assert AnyMissing(probes) <==> AnyMissing(init) || !last.found by {
        assert forall k :: 0 <= k < |init| ==> init[k] == probes[k];
      }
      match Scan(rev, init)
      case None => None
      case Some(before) =>
        if !last.found then None
        else Some(AddPath(before, Cat(rev, last), last.path))
  }

  /** The paths of category `c` in the dictionary; empty when it has no entry. */
  function PathsOf(groups: seq<Group>, c: Category): seq<string>
  {
    var i := Find(groups, c);
    if i < 0 then [] else groups[i].paths
  }

  /** `validate_inputs(video_paths)`: the category dictionary, or `None`. */
  function ValidateInputs(rev: Revision, probes: seq<Probe>): (r: Option<seq<Group>>)
    ensures r.None? <==> AnyMissing(probes) || AnyInvalid(rev, probes) || TooFewShortOnly(rev, probes)
    ensures r.Some? ==> Partitions(rev, probes, r.value) && FirstSeenOrder(rev, probes, r.value)
  {
    match Scan(rev, probes)
    case None => None
    case Some(groups) =>
      ShortCheck(rev, probes, groups);
      InvalidCheck(rev, probes, groups);
      if Find(groups, Short) >= 0 && |PathsOf(groups, Short)| < 3 && |groups| == 1 then None
      else if Find(groups, Invalid) >= 0 then None
      else Some(groups)
  }

  lemma {:induction false} InvalidCheck(rev: Revision, probes: seq<Probe>, groups: seq<Group>)
    requires Partitions(rev, probes, groups)
    ensures Find(groups, Invalid) >= 0 <==> AnyInvalid(rev, probes)
  {
    var i := Find(groups, Invalid);
    if i >= 0 {
      PathsInPresent(rev, probes, Invalid);
    }
    if AnyInvalid(rev, probes) {
      var k :| 0 <= k < |probes| && Cat(rev, probes[k]) == Invalid;
      assert Find(groups, Cat(rev, probes[k])) >= 0;
    }
  }

  lemma {:induction false} PathsInAll(rev: Revision, probes: seq<Probe>, c: Category)
    requires forall k :: 0 <= k < |probes| ==> Cat(rev, probes[k]) == c
    ensures |PathsIn(rev, probes, c)| == |probes|
  {
    if probes != [] {
      PathsInAll(rev, probes[..|probes| - 1], c);
    }
  }

  lemma {:induction false} ShortCheck(rev: Revision, probes: seq<Probe>, groups: seq<Group>)
    requires Partitions(rev, probes, groups)
    ensures (Find(groups, Short) >= 0 && |PathsOf(groups, Short)| < 3 && |groups| == 1) <==> TooFewShortOnly(rev, probes)
  {
    var i := Find(groups, Short);
    if i >= 0 && |groups| == 1 {
      assert i == 0;
      forall k | 0 <= k < |probes|
        ensures Cat(rev, probes[k]) == Short
      {
        assert Find(groups, Cat(rev, probes[k])) == 0;
      }
      PathsInAll(rev, probes, Short);
      PathsInPresent(rev, probes, Short);
    }
    if TooFewShortOnly(rev, probes) {
      assert Find(groups, Cat(rev, probes[0])) >= 0;
      PathsInAll(rev, probes, Short);
      forall j | 0 <= j < |groups|
        ensures groups[j].category == Short
      {
        PathsInPresent(rev, probes, groups[j].category);
      }
      if |groups| > 1 {
        assert false;
      }
    }
  }

  /** Both orders of the listing: `all_videos` holds every input path exactly once. */
  lemma {:induction false} AllVideosPermutesInputs(rev: Revision, probes: seq<Probe>)
    requires ValidateInputs(rev, probes).Some?
    ensures multiset(Flatten(ValidateInputs(rev, probes).value)) == multiset(AllPaths(probes))
    ensures |Flatten(ValidateInputs(rev, probes).value)| == |probes|
  {
    var f := Flatten(ValidateInputs(rev, probes).value);
    assert |multiset(f)| == |f|;
    assert |multiset(AllPaths(probes))| == |AllPaths(probes)|;
  }
}
