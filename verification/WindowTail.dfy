/**
 Turns of a conversation: a token sequence is cut before every role boundary.
 */
module Turns {
  import opened Seqs

  /** The turns with one more token. */
  function Extend<T>(turns: seq<seq<T>>, x: T, boundary: T -> bool): seq<seq<T>> {
    if turns == [] || boundary(x) then turns + [[x]]
    else turns[..|turns| - 1] + [turns[|turns| - 1] + [x]]
  }

  function Split<T>(s: seq<T>, boundary: T -> bool): seq<seq<T>> {
    if s == [] then [] else Extend(Split(s[..|s| - 1], boundary), s[|s| - 1], boundary)
  }

  lemma SplitMore<T>(s: seq<T>, x: T, boundary: T -> bool)
    ensures Split(s + [x], boundary) == Extend(Split(s, boundary), x, boundary)
  {
    assert (s + [x])[..|s|] == s;
  }

  /** A turn has tokens; all but the first turn start with a boundary, and no other token is one. */
  predicate TurnWell<T>(turns: seq<seq<T>>, j: nat, boundary: T -> bool)
    requires j < |turns|
  {
    && turns[j] != [] && (j > 0 ==> boundary(turns[j][0]))
    && forall i :: 0 < i < |turns[j]| ==> !boundary(turns[j][i])
  }

  predicate WellSplit<T>(turns: seq<seq<T>>, boundary: T -> bool) {
    forall j {:trigger TurnWell(turns, j, boundary)} :: 0 <= j < |turns| ==> TurnWell(turns, j, boundary)
  }

  lemma ConcatMore<T>(parts: seq<seq<T>>, part: seq<T>)
    ensures Concat(parts + [part]) == Concat(parts) + part
  {
    assert (parts + [part])[..|parts|] == parts;
  }

  lemma ExtendConcat<T>(turns: seq<seq<T>>, x: T, boundary: T -> bool)
    ensures Concat(Extend(turns, x, boundary)) == Concat(turns) + [x]
  {
    if turns == [] || boundary(x) {
      ConcatMore(turns, [x]);
    } else {
      var most, end := turns[..|turns| - 1], turns[|turns| - 1];
      ConcatMore(most, end + [x]);
      ConcatAssoc(Concat(most), end, [x]);
    }
  }

  lemma ExtendWell<T>(turns: seq<seq<T>>, x: T, boundary: T -> bool)
    requires WellSplit(turns, boundary)
    ensures WellSplit(Extend(turns, x, boundary), boundary) && Extend(turns, x, boundary) != []
  {
    var more := Extend(turns, x, boundary);
    forall j | 0 <= j < |more|
      ensures TurnWell(more, j, boundary)
    {
      assert j < |turns| ==> TurnWell(turns, j, boundary);
    }
  }

  lemma {:induction false} SplitIsWell<T>(s: seq<T>, boundary: T -> bool)
    ensures WellSplit(Split(s, boundary), boundary) && Concat(Split(s, boundary)) == s
    ensures s != [] ==> Split(s, boundary) != []
  {
    if s != [] {
      var front, last := s[..|s| - 1], s[|s| - 1];
      SplitIsWell(front, boundary);
      ExtendConcat(Split(front, boundary), last, boundary);
      ExtendWell(Split(front, boundary), last, boundary);
      assert front + [last] == s;
    }
  }

  /** The turns without their last token. */
  function Shrink<T>(turns: seq<seq<T>>): seq<seq<T>>
    requires turns != [] && turns[|turns| - 1] != []
  {
    var most, end := turns[..|turns| - 1], turns[|turns| - 1];
    if |end| == 1 then most else most + [end[..|end| - 1]]
  }

  lemma ShrinkExtend<T>(turns: seq<seq<T>>, boundary: T -> bool)
    requires WellSplit(turns, boundary) && turns != []
    ensures turns[|turns| - 1] != []
    ensures var end := turns[|turns| - 1];
            Extend(Shrink(turns), end[|end| - 1], boundary) == turns
  {
    var most, end := turns[..|turns| - 1], turns[|turns| - 1];
    assert TurnWell(turns, |most|, boundary);
    if |end| == 1 {
      assert end == [end[0]];
    } else {
      assert end[..|end| - 1] + [end[|end| - 1]] == end;
      assert Shrink(turns)[..|most|] == most;
    }
  }

  lemma ShrinkWell<T>(turns: seq<seq<T>>, boundary: T -> bool)
    requires WellSplit(turns, boundary) && turns != [] && turns[|turns| - 1] != []
    ensures WellSplit(Shrink(turns), boundary)
  {
    var fewer := Shrink(turns);
    forall j | 0 <= j < |fewer|
      ensures TurnWell(fewer, j, boundary)
    {
      assert TurnWell(turns, j, boundary);
    }
  }

  /** Well-split turns are what splitting their concatenation gives back. */
  lemma {:induction false} SplitConcat<T>(turns: seq<seq<T>>, boundary: T -> bool)
    requires WellSplit(turns, boundary)
    ensures Split(Concat(turns), boundary) == turns
    decreases |turns|, if turns == [] then 0 else |turns[|turns| - 1]|
  {
    if turns != [] {
      ShrinkExtend(turns, boundary);
      ShrinkWell(turns, boundary);
      var end := turns[|turns| - 1];
      var x := end[|end| - 1];
      ExtendConcat(Shrink(turns), x, boundary);
      SplitMore(Concat(Shrink(turns)), x, boundary);
      SplitConcat(Shrink(turns), boundary);
    }
  }

  /** The turns in `keep`, in their order. */
  function Pick<T>(turns: seq<seq<T>>, keep: set<nat>): seq<seq<T>> {
    if turns == [] then []
    else
      var n := |turns| - 1;
      Pick(turns[..n], keep) + if n in keep then [turns[n]] else []
  }

  lemma TakeWell<T>(turns: seq<seq<T>>, n: nat, boundary: T -> bool)
    requires WellSplit(turns, boundary) && n <= |turns|
    ensures WellSplit(turns[..n], boundary)
  {
    forall j | 0 <= j < n
      ensures TurnWell(turns[..n], j, boundary)
    {
      assert TurnWell(turns, j, boundary);
    }
  }

  lemma NoEmptyTurn<T>(turns: seq<seq<T>>, boundary: T -> bool)
    requires WellSplit(turns, boundary)
    ensures forall j :: 0 <= j < |turns| ==> turns[j] != []
  {
    forall j | 0 <= j < |turns|
      ensures turns[j] != []
    {
      assert TurnWell(turns, j, boundary);
    }
  }

  /** What is picked is well split again. */
  lemma {:induction false} PickIsWell<T>(turns: seq<seq<T>>, keep: set<nat>, boundary: T -> bool)
    requires WellSplit(turns, boundary)
    ensures WellSplit(Pick(turns, keep), boundary)
  {
    if turns != [] {
      var n := |turns| - 1;
      TakeWell(turns, n, boundary);
      PickIsWell(turns[..n], keep, boundary);
      var picked := Pick(turns, keep);
      assert n == 0 ==> Pick(turns[..n], keep) == [];
      forall j | 0 <= j < |picked|
        ensures TurnWell(picked, j, boundary)
      {
        assert j < |Pick(turns[..n], keep)| ==> TurnWell(Pick(turns[..n], keep), j, boundary);
        assert TurnWell(turns, n, boundary);
      }
    }
  }

  function Total<T>(turns: seq<seq<T>>, keep: set<nat>): nat {
    |Concat(Pick(turns, keep))|
  }

  /** Splits by the loop that the program runs, over tokens as over numbered tokens. */
  method SplitTurns<T>(s: seq<T>, boundary: T -> bool) returns (turns: seq<seq<T>>)
    ensures turns == Split(s, boundary)
  {
    turns := [];
    var current: seq<T> := [];
    for i := 0 to |s|
      invariant current == [] <==> i == 0
      invariant Split(s[..i], boundary) == if current == [] then [] else turns + [current]
      invariant i == 0 ==> turns == []
    {
      assert s[..i + 1] == s[..i] + [s[i]];
      SplitMore(s[..i], s[i], boundary);
      ghost var before := turns + [current];
      assert before[..|turns|] == turns && before[|turns|] == current;
      if boundary(s[i]) && current != [] {
        turns := turns + [current];
        current := [];
      }
      assert current == [] ==> current + [s[i]] == [s[i]];
      current := current + [s[i]];
      assert i == 0 ==> turns + [current] == [[s[i]]];
    }
    assert s[..|s|] == s;
    if current != [] {
      turns := turns + [current];
    }
  }
}

/**
 Which turns a compaction keeps.

 Turns with an anchor are always kept. The others are tried from the newest to the oldest, and each that still fits
 the budget is kept. `KeptExact` says which those are without following the loop.
 */
module TurnSelection {
  import opened Seqs
  import opened Turns

  /** The sizes of the kept turns from `a` to `b`. */
  function Sum(sizes: seq<nat>, keep: set<nat>, a: nat, b: nat): nat
    requires b <= |sizes|
    decreases b
  {
    if b <= a then 0 else Sum(sizes, keep, a, b - 1) + if b - 1 in keep then sizes[b - 1] else 0
  }

  lemma {:induction false} SumAgrees(sizes: seq<nat>, k: set<nat>, l: set<nat>, a: nat, b: nat)
    requires b <= |sizes| && forall i :: a <= i < b ==> (i in k <==> i in l)
    ensures Sum(sizes, k, a, b) == Sum(sizes, l, a, b)
    decreases b
  {
    if a < b {
      SumAgrees(sizes, k, l, a, b - 1);
    }
  }

  lemma {:induction false} SumUnion(sizes: seq<nat>, k: set<nat>, l: set<nat>, a: nat, b: nat)
    requires b <= |sizes| && k !! l
    ensures Sum(sizes, k + l, a, b) == Sum(sizes, k, a, b) + Sum(sizes, l, a, b)
    decreases b
  {
    if a < b {
      SumUnion(sizes, k, l, a, b - 1);
    }
  }

  lemma {:induction false} SumSplit(sizes: seq<nat>, k: set<nat>, a: nat, m: nat, b: nat)
    requires a <= m <= b <= |sizes|
    ensures Sum(sizes, k, a, b) == Sum(sizes, k, a, m) + Sum(sizes, k, m, b)
    decreases b
  {
    if m < b {
      SumSplit(sizes, k, a, m, b - 1);
    }
  }

  function AnchorTurns(anchored: seq<bool>): set<nat> {
    set j | 0 <= j < |anchored| && anchored[j]
  }

  /** From the newest of the first `j` turns to the oldest: whatever has no anchor and still fits. */
  function Newest(sizes: seq<nat>, anchored: seq<bool>, j: nat, used: nat, budget: nat): set<nat>
    requires j <= |sizes| == |anchored|
  {
    if j == 0 then {}
    else if anchored[j - 1] || used + sizes[j - 1] > budget then Newest(sizes, anchored, j - 1, used, budget)
    else {j - 1} + Newest(sizes, anchored, j - 1, used + sizes[j - 1], budget)
  }

  function Kept(sizes: seq<nat>, anchored: seq<bool>, budget: nat): set<nat>
    requires |sizes| == |anchored|
  {
    var anchors := AnchorTurns(anchored);
    anchors + Newest(sizes, anchored, |sizes|, Sum(sizes, anchors, 0, |sizes|), budget)
  }

  /** A turn without an anchor is taken exactly if it fits beside what is used and what was taken of the newer turns. */
  lemma {:induction false} NewestExact(sizes: seq<nat>, anchored: seq<bool>, j: nat, used: nat, budget: nat)
    requires j <= |sizes| == |anchored|
    ensures var taken := Newest(sizes, anchored, j, used, budget);
            && (forall i :: i in taken ==> i < j && !anchored[i])
            && (forall i :: 0 <= i < j && !anchored[i] ==>
                  (i in taken <==> used + Sum(sizes, taken, i + 1, j) + sizes[i] <= budget))
  {
    if j > 0 {
      var taken := Newest(sizes, anchored, j, used, budget);
      var take := !anchored[j - 1] && used + sizes[j - 1] <= budget;
      var more := if take then used + sizes[j - 1] else used;
      var rest := Newest(sizes, anchored, j - 1, more, budget);
      NewestExact(sizes, anchored, j - 1, more, budget);
      forall i | 0 <= i < j && !anchored[i]
        ensures i in taken <==> used + Sum(sizes, taken, i + 1, j) + sizes[i] <= budget
      {
        SumAgrees(sizes, taken, rest, i + 1, j - 1);
      }
    }
  }

  /** The kept turns: all with an anchor, and of the others exactly those that fit beside the anchors and the newer
      kept ones. */
  ghost predicate IsKept(sizes: seq<nat>, anchored: seq<bool>, budget: nat, keep: set<nat>)
    requires |sizes| == |anchored|
  {
    var anchors := AnchorTurns(anchored);
    && (forall j :: j in keep ==> j < |sizes|)
    && (forall j :: 0 <= j < |sizes| && anchored[j] ==> j in keep)
    && (forall j :: 0 <= j < |sizes| && !anchored[j] ==>
          (j in keep <==>
             Sum(sizes, anchors, 0, |sizes|) + Sum(sizes, keep - anchors, j + 1, |sizes|) + sizes[j] <= budget))
  }

  lemma KeptExact(sizes: seq<nat>, anchored: seq<bool>, budget: nat)
    requires |sizes| == |anchored|
    ensures IsKept(sizes, anchored, budget, Kept(sizes, anchored, budget))
  {
    var anchors := AnchorTurns(anchored);
    var base := Sum(sizes, anchors, 0, |sizes|);
    NewestExact(sizes, anchored, |sizes|, base, budget);
    var taken := Newest(sizes, anchored, |sizes|, base, budget);
    assert Kept(sizes, anchored, budget) - anchors == taken;
  }

  lemma {:induction false} KeptUniqueFrom(sizes: seq<nat>, anchored: seq<bool>, budget: nat, k: set<nat>, l: set<nat>, j: nat)
    requires j <= |sizes| == |anchored|
    requires IsKept(sizes, anchored, budget, k) && IsKept(sizes, anchored, budget, l)
    ensures forall i :: j <= i < |sizes| ==> (i in k <==> i in l)
    decreases |sizes| - j
  {
    if j < |sizes| {
      KeptUniqueFrom(sizes, anchored, budget, k, l, j + 1);
      var anchors := AnchorTurns(anchored);
      SumAgrees(sizes, k - anchors, l - anchors, j + 1, |sizes|);
    }
  }

  /** Nothing else is a selection of this kind. */
  lemma KeptUnique(sizes: seq<nat>, anchored: seq<bool>, budget: nat, keep: set<nat>)
    requires |sizes| == |anchored| && IsKept(sizes, anchored, budget, keep)
    ensures keep == Kept(sizes, anchored, budget)
  {
    KeptExact(sizes, anchored, budget);
    KeptUniqueFrom(sizes, anchored, budget, keep, Kept(sizes, anchored, budget), 0);
  }

  /** Unless the anchors alone are over the budget, it is kept to, and then nothing that was left out still fits; if they
      are, they alone are kept. */
  lemma KeptWithin(sizes: seq<nat>, anchored: seq<bool>, budget: nat)
    requires |sizes| == |anchored|
    ensures var anchors, keep := AnchorTurns(anchored), Kept(sizes, anchored, budget);
            && (Sum(sizes, anchors, 0, |sizes|) <= budget ==> Sum(sizes, keep, 0, |sizes|) <= budget)
            && (Sum(sizes, anchors, 0, |sizes|) > budget ==> keep == anchors)
            && (forall j :: 0 <= j < |sizes| && j !in keep ==> Sum(sizes, keep, 0, |sizes|) + sizes[j] > budget)
  {
    var anchors, keep := AnchorTurns(anchored), Kept(sizes, anchored, budget);
    var base := Sum(sizes, anchors, 0, |sizes|);
    KeptExact(sizes, anchored, budget);
    var taken := keep - anchors;
    SumUnion(sizes, anchors, taken, 0, |sizes|);
    assert anchors + taken == keep;
    forall j | 0 <= j < |sizes| && j !in keep
      ensures Sum(sizes, keep, 0, |sizes|) + sizes[j] > budget
    {
      SumSplit(sizes, taken, 0, j + 1, |sizes|);
    }
    if base > budget {
      assert forall j :: j in taken ==> j !in keep;
    } else {
      TakenWithin(sizes, anchored, budget, keep, 0);
    }
  }

  /** What is taken of the newest turns fits, for every number of them. */
  lemma {:induction false} TakenWithin(sizes: seq<nat>, anchored: seq<bool>, budget: nat, keep: set<nat>, j: nat)
    requires j <= |sizes| == |anchored| && IsKept(sizes, anchored, budget, keep)
    requires Sum(sizes, AnchorTurns(anchored), 0, |sizes|) <= budget
    ensures Sum(sizes, AnchorTurns(anchored), 0, |sizes|)
            + Sum(sizes, keep - AnchorTurns(anchored), j, |sizes|) <= budget
    decreases |sizes| - j
  {
    if j < |sizes| {
      TakenWithin(sizes, anchored, budget, keep, j + 1);
      SumSplit(sizes, keep - AnchorTurns(anchored), j, j + 1, |sizes|);
    }
  }

  function Sizes<T>(turns: seq<seq<T>>): (sizes: seq<nat>)
    ensures |sizes| == |turns| && forall j :: 0 <= j < |turns| ==> sizes[j] == |turns[j]|
  {
    seq(|turns|, j requires 0 <= j < |turns| => |turns[j]|)
  }

  /** The size of what is picked is the sum of the sizes. */
  lemma {:induction false} PickedSize<T>(turns: seq<seq<T>>, keep: set<nat>)
    ensures |Concat(Pick(turns, keep))| == Sum(Sizes(turns), keep, 0, |turns|)
  {
    if turns != [] {
      var n := |turns| - 1;
      PickedSize(turns[..n], keep);
      SumPrefix(Sizes(turns[..n]), Sizes(turns), keep, n);
      if n in keep {
        ConcatMore(Pick(turns[..n], keep), turns[n]);
      } else {
        assert Pick(turns[..n], keep) + [] == Pick(turns[..n], keep);
      }
    }
  }

  lemma {:induction false} SumPrefix(short: seq<nat>, long: seq<nat>, keep: set<nat>, b: nat)
    requires b <= |short| <= |long| && forall i :: 0 <= i < b ==> short[i] == long[i]
    ensures Sum(short, keep, 0, b) == Sum(long, keep, 0, b)
  {
    if b > 0 {
      SumPrefix(short, long, keep, b - 1);
    }
  }
}

/**
 Compaction, for any tokens: what is kept, and that compacting again changes nothing.
 */
module Compaction {
  import opened Seqs
  import opened Turns
  import opened TurnSelection

  const COMPACTION_BLOCK_TOKENS: nat := 64

  function Requested(target: nat): nat {
    if target == 0 then 1 else target
  }

  /** Larger targets are rounded down to whole cache blocks. */
  function Budget(requested: nat): nat {
    if requested >= COMPACTION_BLOCK_TOKENS then requested - requested % COMPACTION_BLOCK_TOKENS else requested
  }

  predicate HasAnchor<T>(turn: seq<T>, anchor: T -> bool) {
    exists i :: 0 <= i < |turn| && anchor(turn[i])
  }

  function Anchored<T>(turns: seq<seq<T>>, anchor: T -> bool): (flags: seq<bool>)
    ensures |flags| == |turns| && forall j :: 0 <= j < |turns| ==> flags[j] == HasAnchor(turns[j], anchor)
  {
    seq(|turns|, j requires 0 <= j < |turns| => HasAnchor(turns[j], anchor))
  }

  function KeptTurns<T>(turns: seq<seq<T>>, anchor: T -> bool, budget: nat): set<nat> {
    Kept(Sizes(turns), Anchored(turns, anchor), budget)
  }

  /** What stays when no turn can be kept: the whole newest turn under a small budget, else the end of it. */
  function LastResort<T>(turns: seq<seq<T>>, budget: nat): seq<T> {
    if turns == [] then []
    else
      var last := turns[|turns| - 1];
      if budget < COMPACTION_BLOCK_TOKENS || |last| <= budget then last else last[|last| - budget..]
  }

  function Compact<T>(s: seq<T>, boundary: T -> bool, anchor: T -> bool, requested: nat): seq<T> {
    if |s| <= requested then s
    else
      var budget := Budget(requested);
      var turns := Split(s, boundary);
      var keep := KeptTurns(turns, anchor, budget);
      if keep == {} then LastResort(turns, budget) else Concat(Pick(turns, keep))
  }

  /** Compacting a compacted sequence for the same target changes nothing. */
  lemma Idempotent<T>(s: seq<T>, boundary: T -> bool, anchor: T -> bool, requested: nat)
    requires requested > 0
    ensures Compact(Compact(s, boundary, anchor, requested), boundary, anchor, requested)
            == Compact(s, boundary, anchor, requested)
  {
    var budget := Budget(requested);
    var turns := Split(s, boundary);
    var keep := KeptTurns(turns, anchor, budget);
    SplitIsWell(s, boundary);
    if |Compact(s, boundary, anchor, requested)| > requested {
      if keep == {} {
        LastTurnStays(turns, boundary, anchor, requested);
      } else {
        AnchorsStay(turns, boundary, anchor, requested);
      }
    }
  }

  lemma LastTurnStays<T>(turns: seq<seq<T>>, boundary: T -> bool, anchor: T -> bool, requested: nat)
    requires turns != [] && WellSplit(turns, boundary) && KeptTurns(turns, anchor, Budget(requested)) == {}
    requires |LastResort(turns, Budget(requested))| > requested
    ensures var last := turns[|turns| - 1];
            LastResort(turns, Budget(requested)) == last && Compact(last, boundary, anchor, requested) == last
  {
    var n, last := |turns| - 1, turns[|turns| - 1];
    KeptExact(Sizes(turns), Anchored(turns, anchor), Budget(requested));
    assert !Anchored(turns, anchor)[n];
    assert TurnWell(turns, n, boundary) && TurnWell([last], 0, boundary);
    ConcatMore([], last);
    assert [] + [last] == [last];
    assert [] + last == last;
    SplitConcat([last], boundary);
    AloneNotKept(last, anchor, Budget(requested));
  }

  lemma AloneNotKept<T>(turn: seq<T>, anchor: T -> bool, budget: nat)
    requires |turn| > budget && !HasAnchor(turn, anchor)
    ensures KeptTurns([turn], anchor, budget) == {}
  {
    var sizes, anchored := Sizes([turn]), Anchored([turn], anchor);
    assert AnchorTurns(anchored) == {};
    assert Sum(sizes, {}, 0, 1) == Sum(sizes, {}, 0, 0) == 0;
    assert Newest(sizes, anchored, 0, 0, budget) == {};
    assert Newest(sizes, anchored, 1, 0, budget) == {};
  }

  lemma AnchorsStay<T>(turns: seq<seq<T>>, boundary: T -> bool, anchor: T -> bool, requested: nat)
    requires WellSplit(turns, boundary) && KeptTurns(turns, anchor, Budget(requested)) != {}
    requires |Concat(Pick(turns, KeptTurns(turns, anchor, Budget(requested))))| > requested
    ensures var kept := Concat(Pick(turns, KeptTurns(turns, anchor, Budget(requested))));
            Compact(kept, boundary, anchor, requested) == kept
  {
    var budget := Budget(requested);
    var anchored := Anchored(turns, anchor);
    var keep := KeptTurns(turns, anchor, budget);
    KeptWithin(Sizes(turns), anchored, budget);
    PickedSize(turns, keep);
    assert keep == AnchorTurns(anchored);
    var picked := Pick(turns, keep);
    PickIsWell(turns, keep, boundary);
    SplitConcat(picked, boundary);
    PickedAnchored(turns, anchor);
    AllKept(picked, anchor, budget);
    PickAll(picked, KeptTurns(picked, anchor, budget));
    assert picked != [];
    assert 0 in KeptTurns(picked, anchor, budget);
  }

  lemma {:induction false} PickedAnchored<T>(turns: seq<seq<T>>, anchor: T -> bool)
    ensures forall j :: 0 <= j < |Pick(turns, AnchorTurns(Anchored(turns, anchor)))| ==>
              HasAnchor(Pick(turns, AnchorTurns(Anchored(turns, anchor)))[j], anchor)
  {
    if turns != [] {
      var n := |turns| - 1;
      PickedAnchored(turns[..n], anchor);
      PickAgrees(turns[..n], AnchorTurns(Anchored(turns, anchor)), AnchorTurns(Anchored(turns[..n], anchor)));
    }
  }

  lemma {:induction false} PickAgrees<T>(turns: seq<seq<T>>, k: set<nat>, l: set<nat>)
    requires forall j :: 0 <= j < |turns| ==> (j in k <==> j in l)
    ensures Pick(turns, k) == Pick(turns, l)
  {
    if turns != [] {
      PickAgrees(turns[..|turns| - 1], k, l);
    }
  }

  lemma AllKept<T>(turns: seq<seq<T>>, anchor: T -> bool, budget: nat)
    requires forall j :: 0 <= j < |turns| ==> HasAnchor(turns[j], anchor)
    ensures forall j: nat :: j < |turns| ==> j in KeptTurns(turns, anchor, budget)
  {
    KeptExact(Sizes(turns), Anchored(turns, anchor), budget);
    forall j: nat | j < |turns|
      ensures j in KeptTurns(turns, anchor, budget)
    {
      assert Anchored(turns, anchor)[j];
    }
  }

  lemma {:induction false} PickAll<T>(turns: seq<seq<T>>, keep: set<nat>)
    requires forall j: nat :: j < |turns| ==> j in keep
    ensures Pick(turns, keep) == turns
  {
    if turns != [] {
      PickAll(turns[..|turns| - 1], keep);
    }
  }

  // ---- what a compaction gives ----

  /** The output fits the aligned budget, unless the anchors alone are over it or the newest turn is kept whole under a
      small budget; then, and only then, it is longer than requested. */
  lemma CompactedFits<T>(s: seq<T>, boundary: T -> bool, anchor: T -> bool, requested: nat)
    requires |s| > requested > 0
    ensures var (budget, turns) := (Budget(requested), Split(s, boundary));
            var anchors := AnchorTurns(Anchored(turns, anchor));
            var out := Compact(s, boundary, anchor, requested);
            && (|out| <= budget
                || (Sum(Sizes(turns), anchors, 0, |turns|) > budget && out == Concat(Pick(turns, anchors)))
                || (budget < COMPACTION_BLOCK_TOKENS && KeptTurns(turns, anchor, budget) == {} && turns != []
                    && out == turns[|turns| - 1]))
  {
    var (budget, turns) := (Budget(requested), Split(s, boundary));
    var keep := KeptTurns(turns, anchor, budget);
    SplitIsWell(s, boundary);
    KeptWithin(Sizes(turns), Anchored(turns, anchor), budget);
    PickedSize(turns, keep);
  }

  /** A target becomes at least one token, and from one cache block on a whole number of cache blocks. */
  lemma BudgetExact(target: nat)
    ensures Requested(target) >= 1 && (target > 0 ==> Requested(target) == target)
    ensures var (requested, budget) := (Requested(target), Budget(Requested(target)));
            && (requested < 64 ==> budget == requested)
            && (requested >= 64 ==> budget % 64 == 0 && budget <= requested < budget + 64)
  {
  }

  /** When no turn can be kept, what is left is the end of the source: the whole newest turn if it fits or the budget is
      less than a cache block, else as much of its end as the budget allows. */
  lemma LastResortIsEnd<T>(s: seq<T>, boundary: T -> bool, anchor: T -> bool, requested: nat)
    requires |s| > requested > 0
    requires KeptTurns(Split(s, boundary), anchor, Budget(requested)) == {}
    ensures var (budget, turns) := (Budget(requested), Split(s, boundary));
            var out := Compact(s, boundary, anchor, requested);
            && turns != [] && 0 < |out| <= |s| && out == s[|s| - |out|..]
            && |out| == if budget < COMPACTION_BLOCK_TOKENS || |turns[|turns| - 1]| <= budget then |turns[|turns| - 1]|
                        else budget
  {
    var turns := Split(s, boundary);
    var n := |turns| - 1;
    SplitIsWell(s, boundary);
    NoEmptyTurn(turns, boundary);
    LastResortLength(turns, Budget(requested));
    EndOfJoin(Concat(turns[..n]), turns[n], |LastResort(turns, Budget(requested))|);
  }

  lemma LastResortLength<T>(turns: seq<seq<T>>, budget: nat)
    requires turns != [] && turns[|turns| - 1] != [] && budget > 0
    ensures var (out, last) := (LastResort(turns, budget), turns[|turns| - 1]);
            && |out| == (if budget < COMPACTION_BLOCK_TOKENS || |last| <= budget then |last| else budget)
            && 0 < |out| <= |last| && out == last[|last| - |out|..]
  {
  }

  lemma EndOfJoin<T>(most: seq<T>, last: seq<T>, n: nat)
    requires n <= |last|
    ensures (most + last)[|most + last| - n..] == last[|last| - n..]
  {
  }

  /** Every anchor survives, in every branch. */
  lemma AnchorsSurvive<T>(s: seq<T>, boundary: T -> bool, anchor: T -> bool, requested: nat)
    requires requested > 0
    ensures Count(Compact(s, boundary, anchor, requested), anchor) == Count(s, anchor)
  {
    if |s| > requested {
      var (budget, turns) := (Budget(requested), Split(s, boundary));
      var keep := KeptTurns(turns, anchor, budget);
      SplitIsWell(s, boundary);
      OthersHaveNone(turns, anchor, budget);
      CountPicked(turns, keep, anchor);
      if keep == {} {
        PickNone(turns);
        LastHasNone(turns, anchor, budget);
        CountNone(LastResort(turns, budget), anchor);
      }
    }
  }

  /** Every turn with an anchor is, whole, a turn of what is left. */
  lemma AnchorTurnsStayWhole<T>(s: seq<T>, boundary: T -> bool, anchor: T -> bool, requested: nat, j: nat)
    requires requested > 0 && j < |Split(s, boundary)| && HasAnchor(Split(s, boundary)[j], anchor)
    ensures Split(s, boundary)[j] in Split(Compact(s, boundary, anchor, requested), boundary)
  {
    if |s| > requested {
      var turns := Split(s, boundary);
      var keep := KeptTurns(turns, anchor, Budget(requested));
      SplitIsWell(s, boundary);
      OthersHaveNone(turns, anchor, Budget(requested));
      PickIsWell(turns, keep, boundary);
      SplitConcat(Pick(turns, keep), boundary);
      PickHas(turns, keep, j);
    }
  }

  lemma {:induction false} PickHas<T>(turns: seq<seq<T>>, keep: set<nat>, j: nat)
    requires j < |turns| && j in keep
    ensures turns[j] in Pick(turns, keep)
  {
    if j < |turns| - 1 {
      PickHas(turns[..|turns| - 1], keep, j);
    }
  }

  lemma OthersHaveNone<T>(turns: seq<seq<T>>, anchor: T -> bool, budget: nat)
    ensures forall j :: 0 <= j < |turns| && j !in KeptTurns(turns, anchor, budget) ==> !HasAnchor(turns[j], anchor)
  {
    KeptExact(Sizes(turns), Anchored(turns, anchor), budget);
    forall j | 0 <= j < |turns| && j !in KeptTurns(turns, anchor, budget)
      ensures !HasAnchor(turns[j], anchor)
    {
      assert !Anchored(turns, anchor)[j];
    }
  }

  lemma LastHasNone<T>(turns: seq<seq<T>>, anchor: T -> bool, budget: nat)
    requires forall j :: 0 <= j < |turns| ==> !HasAnchor(turns[j], anchor)
    ensures !HasAnchor(LastResort(turns, budget), anchor)
  {
    if turns != [] {
      var last := turns[|turns| - 1];
      var skipped := |last| - |LastResort(turns, budget)|;
      assert forall i :: 0 <= i < |LastResort(turns, budget)| ==> LastResort(turns, budget)[i] == last[skipped + i];
    }
  }

  function Count<T>(s: seq<T>, anchor: T -> bool): nat {
    if s == [] then 0 else Count(s[..|s| - 1], anchor) + if anchor(s[|s| - 1]) then 1 else 0
  }

  lemma {:induction false} CountConcat<T>(a: seq<T>, b: seq<T>, anchor: T -> bool)
    ensures Count(a + b, anchor) == Count(a, anchor) + Count(b, anchor)
    decreases |b|
  {
    if b == [] {
      assert a + b == a;
    } else {
      assert (a + b)[..|a + b| - 1] == a + b[..|b| - 1];
      CountConcat(a, b[..|b| - 1], anchor);
    }
  }

  lemma {:induction false} CountNone<T>(s: seq<T>, anchor: T -> bool)
    requires !HasAnchor(s, anchor)
    ensures Count(s, anchor) == 0
  {
    if s != [] {
      CountNone(s[..|s| - 1], anchor);
    }
  }

  lemma {:induction false} CountPicked<T>(turns: seq<seq<T>>, keep: set<nat>, anchor: T -> bool)
    requires forall j :: 0 <= j < |turns| && j !in keep ==> !HasAnchor(turns[j], anchor)
    ensures Count(Concat(Pick(turns, keep)), anchor) == Count(Concat(turns), anchor)
  {
    if turns != [] {
      var n := |turns| - 1;
      CountPicked(turns[..n], keep, anchor);
      CountConcat(Concat(turns[..n]), turns[n], anchor);
      if n in keep {
        ConcatMore(Pick(turns[..n], keep), turns[n]);
        CountConcat(Concat(Pick(turns[..n], keep)), turns[n], anchor);
      } else {
        CountNone(turns[n], anchor);
        assert Pick(turns[..n], keep) + [] == Pick(turns[..n], keep);
      }
    }
  }

  lemma {:induction false} PickNone<T>(turns: seq<seq<T>>)
    ensures Pick(turns, {}) == []
  {
    if turns != [] {
      PickNone(turns[..|turns| - 1]);
    }
  }
}

/**
 Numbered tokens: what compaction keeps does not depend on the numbers, and the numbers say where it comes from.
 */
module Numbered {
  import opened Seqs
  import opened Turns
  import opened TurnSelection
  import opened Compaction

  /** A token with its index in the source. */
  type Item<T> = (nat, T)

  function Lift<T>(test: T -> bool): Item<T> -> bool {
    (item: Item<T>) => test(item.1)
  }

  function Enumerate<T>(tokens: seq<T>): (items: seq<Item<T>>)
    ensures |items| == |tokens| && forall i :: 0 <= i < |items| ==> items[i] == (i, tokens[i])
  {
    seq(|tokens|, i requires 0 <= i < |tokens| => (i, tokens[i]))
  }

  function Texts<T>(items: seq<Item<T>>): (texts: seq<T>)
    ensures |texts| == |items| && forall i :: 0 <= i < |items| ==> texts[i] == items[i].1
  {
    seq(|items|, i requires 0 <= i < |items| => items[i].1)
  }

  function Indices<T>(items: seq<Item<T>>): (indices: seq<nat>)
    ensures |indices| == |items| && forall i :: 0 <= i < |items| ==> indices[i] == items[i].0
  {
    seq(|items|, i requires 0 <= i < |items| => items[i].0)
  }

  // ---- numbering does not matter to what is kept ----

  function TextTurns<T>(turns: seq<seq<Item<T>>>): (texts: seq<seq<T>>)
    ensures |texts| == |turns| && forall j :: 0 <= j < |turns| ==> texts[j] == Texts(turns[j])
  {
    seq(|turns|, j requires 0 <= j < |turns| => Texts(turns[j]))
  }

  lemma TextsConcat<T>(a: seq<Item<T>>, b: seq<Item<T>>)
    ensures Texts(a + b) == Texts(a) + Texts(b)
  {
  }

  lemma ExtendTexts<T>(turns: seq<seq<Item<T>>>, item: Item<T>, boundary: T -> bool)
    ensures TextTurns(Extend(turns, item, Lift(boundary))) == Extend(TextTurns(turns), item.1, boundary)
  {
    assert Texts([item]) == [item.1];
    if turns != [] && !boundary(item.1) {
      TextsConcat(turns[|turns| - 1], [item]);
    }
  }

  lemma {:induction false} SplitTexts<T>(items: seq<Item<T>>, boundary: T -> bool)
    ensures TextTurns(Split(items, Lift(boundary))) == Split(Texts(items), boundary)
  {
    if items != [] {
      var front, last := items[..|items| - 1], items[|items| - 1];
      SplitTexts(front, boundary);
      ExtendTexts(Split(front, Lift(boundary)), last, boundary);
      assert Texts(items)[..|items| - 1] == Texts(front);
    }
  }

  lemma {:induction false} PickTexts<T>(turns: seq<seq<Item<T>>>, keep: set<nat>)
    ensures Texts(Concat(Pick(turns, keep))) == Concat(Pick(TextTurns(turns), keep))
  {
    if turns != [] {
      var n := |turns| - 1;
      PickTexts(turns[..n], keep);
      assert TextTurns(turns)[..n] == TextTurns(turns[..n]);
      if n in keep {
        ConcatMore(Pick(turns[..n], keep), turns[n]);
        ConcatMore(Pick(TextTurns(turns[..n]), keep), Texts(turns[n]));
        TextsConcat(Concat(Pick(turns[..n], keep)), turns[n]);
      } else {
        assert Pick(turns[..n], keep) + [] == Pick(turns[..n], keep);
        assert Pick(TextTurns(turns[..n]), keep) + [] == Pick(TextTurns(turns[..n]), keep);
      }
    }
  }

  lemma AnchorTexts<T>(turn: seq<Item<T>>, anchor: T -> bool)
    ensures HasAnchor(turn, Lift(anchor)) == HasAnchor(Texts(turn), anchor)
  {
    if i :| 0 <= i < |turn| && Lift(anchor)(turn[i]) {
      assert anchor(Texts(turn)[i]);
    }
    if i :| 0 <= i < |turn| && anchor(Texts(turn)[i]) {
      assert Lift(anchor)(turn[i]);
    }
  }

  lemma KeptTexts<T>(turns: seq<seq<Item<T>>>, anchor: T -> bool, budget: nat)
    ensures KeptTurns(turns, Lift(anchor), budget) == KeptTurns(TextTurns(turns), anchor, budget)
  {
    assert Sizes(turns) == Sizes(TextTurns(turns));
    forall j | 0 <= j < |turns|
      ensures HasAnchor(turns[j], Lift(anchor)) == HasAnchor(TextTurns(turns)[j], anchor)
    {
      AnchorTexts(turns[j], anchor);
    }
    assert Anchored(turns, Lift(anchor)) == Anchored(TextTurns(turns), anchor);
  }

  /** The texts of the compacted items are the compacted texts. */
  lemma CompactTexts<T>(tokens: seq<T>, boundary: T -> bool, anchor: T -> bool, requested: nat)
    ensures Texts(Compact(Enumerate(tokens), Lift(boundary), Lift(anchor), requested))
            == Compact(tokens, boundary, anchor, requested)
  {
    var items := Enumerate(tokens);
    assert Texts(items) == tokens;
    if |items| > requested {
      var budget := Budget(requested);
      var turns := Split(items, Lift(boundary));
      SplitTexts(items, boundary);
      KeptTexts(turns, anchor, budget);
      PickTexts(turns, KeptTurns(turns, Lift(anchor), budget));
      LastTexts(turns, budget);
    }
  }

  lemma LastTexts<T>(turns: seq<seq<Item<T>>>, budget: nat)
    ensures Texts(LastResort(turns, budget)) == LastResort(TextTurns(turns), budget)
  {
  }

  // ---- indices ----

  ghost predicate Ascending<T>(items: seq<Item<T>>) {
    forall i, j :: 0 <= i < j < |items| ==> items[i].0 < items[j].0
  }

  ghost predicate From<T>(some: seq<Item<T>>, all: seq<Item<T>>) {
    forall i :: 0 <= i < |some| ==> some[i] in all
  }

  /** What is picked keeps its order. */
  lemma {:induction false} PickAscending<T>(turns: seq<seq<Item<T>>>, keep: set<nat>)
    requires Ascending(Concat(turns))
    ensures Ascending(Concat(Pick(turns, keep))) && From(Concat(Pick(turns, keep)), Concat(turns))
  {
    if turns != [] {
      var n := |turns| - 1;
      var front := Concat(turns[..n]);
      assert Concat(turns)[..|front|] == front;
      PickAscending(turns[..n], keep);
      if n in keep {
        ConcatMore(Pick(turns[..n], keep), turns[n]);
        AscendingJoin(front, Concat(Pick(turns[..n], keep)), turns[n]);
      } else {
        assert Pick(turns[..n], keep) + [] == Pick(turns[..n], keep);
      }
    }
  }

  lemma AscendingJoin<T>(all: seq<Item<T>>, some: seq<Item<T>>, more: seq<Item<T>>)
    requires Ascending(all + more) && Ascending(some) && From(some, all)
    ensures Ascending(some + more) && From(some + more, all + more)
  {
    forall i, j | 0 <= i < |some| && 0 <= j < |more|
      ensures some[i].0 < more[j].0
    {
      var k :| 0 <= k < |all| && all[k] == some[i];
      assert (all + more)[k] == some[i] && (all + more)[|all| + j] == more[j];
    }
    forall i, j | 0 <= i < j < |more|
      ensures more[i].0 < more[j].0
    {
      assert (all + more)[|all| + i] == more[i] && (all + more)[|all| + j] == more[j];
    }
  }

  lemma SuffixAscending<T>(items: seq<Item<T>>, from: nat)
    requires Ascending(items) && from <= |items|
    ensures Ascending(items[from..]) && From(items[from..], items)
  {
  }

  /** The kept indices strictly increase, and each names its token. */
  lemma CompactedInOrder<T>(tokens: seq<T>, boundary: T -> bool, anchor: T -> bool, requested: nat)
    ensures var out := Compact(Enumerate(tokens), Lift(boundary), Lift(anchor), requested);
            && Ascending(out)
            && forall i :: 0 <= i < |out| ==> out[i].0 < |tokens| && out[i].1 == tokens[out[i].0]
  {
    OrderKept(Enumerate(tokens), Lift(boundary), Lift(anchor), requested);
    FromNames(tokens, Compact(Enumerate(tokens), Lift(boundary), Lift(anchor), requested));
  }

  /** When no turn can be kept, the indices are the last ones of the source. */
  lemma LastIndices<T>(tokens: seq<T>, boundary: T -> bool, anchor: T -> bool, requested: nat)
    requires |tokens| > requested > 0
    requires KeptTurns(Split(tokens, boundary), anchor, Budget(requested)) == {}
    ensures var out := Compact(Enumerate(tokens), Lift(boundary), Lift(anchor), requested);
            && 0 < |out| <= |tokens|
            && forall i :: 0 <= i < |out| ==> out[i] == (|tokens| - |out| + i, tokens[|tokens| - |out| + i])
  {
    NothingNumbered(tokens, boundary, anchor, Budget(requested));
    LastResortIsEnd(Enumerate(tokens), Lift(boundary), Lift(anchor), requested);
  }

  lemma NothingNumbered<T>(tokens: seq<T>, boundary: T -> bool, anchor: T -> bool, budget: nat)
    requires KeptTurns(Split(tokens, boundary), anchor, budget) == {}
    ensures KeptTurns(Split(Enumerate(tokens), Lift(boundary)), Lift(anchor), budget) == {}
  {
    SplitTexts(Enumerate(tokens), boundary);
    KeptTexts(Split(Enumerate(tokens), Lift(boundary)), anchor, budget);
    assert Texts(Enumerate(tokens)) == tokens;
  }

  lemma FromNames<T>(tokens: seq<T>, some: seq<Item<T>>)
    requires From(some, Enumerate(tokens))
    ensures forall i :: 0 <= i < |some| ==> some[i].0 < |tokens| && some[i].1 == tokens[some[i].0]
  {
  }

  lemma OrderKept<T>(items: seq<Item<T>>, boundary: Item<T> -> bool, anchor: Item<T> -> bool, requested: nat)
    requires Ascending(items)
    ensures Ascending(Compact(items, boundary, anchor, requested))
    ensures From(Compact(items, boundary, anchor, requested), items)
  {
    if |items| > requested {
      var turns := Split(items, boundary);
      SplitIsWell(items, boundary);
      PickAscending(turns, KeptTurns(turns, anchor, Budget(requested)));
      LastInOrder(turns, Budget(requested));
    }
  }

  lemma LastInOrder<T>(turns: seq<seq<Item<T>>>, budget: nat)
    requires Ascending(Concat(turns))
    ensures Ascending(LastResort(turns, budget)) && From(LastResort(turns, budget), Concat(turns))
  {
    if turns != [] {
      var front, last := Concat(turns[..|turns| - 1]), turns[|turns| - 1];
      var skipped := |last| - |LastResort(turns, budget)|;
      assert (front + last)[|front| + skipped..] == last[skipped..] == LastResort(turns, budget);
      SuffixAscending(front + last, |front| + skipped);
    }
  }

  // ---- sorting by index ----

  function Insert<T>(x: Item<T>, s: seq<Item<T>>): seq<Item<T>> {
    if s == [] || s[|s| - 1].0 <= x.0 then s + [x] else Insert(x, s[..|s| - 1]) + [s[|s| - 1]]
  }

  function SortByIndex<T>(s: seq<Item<T>>): seq<Item<T>> {
    if s == [] then [] else Insert(s[|s| - 1], SortByIndex(s[..|s| - 1]))
  }

  ghost predicate Sorted<T>(s: seq<Item<T>>) {
    forall i, j :: 0 <= i < j < |s| ==> s[i].0 <= s[j].0
  }

  lemma {:induction false} InsertHolds<T>(x: Item<T>, s: seq<Item<T>>)
    ensures multiset(Insert(x, s)) == multiset(s) + multiset{x}
  {
    if s != [] && s[|s| - 1].0 > x.0 {
      InsertHolds(x, s[..|s| - 1]);
      assert s[..|s| - 1] + [s[|s| - 1]] == s;
    }
  }

  lemma {:induction false} InsertSorts<T>(x: Item<T>, s: seq<Item<T>>)
    requires Sorted(s)
    ensures Sorted(Insert(x, s))
    ensures forall i :: 0 <= i < |Insert(x, s)| ==> Insert(x, s)[i].0 <= x.0 || (s != [] && Insert(x, s)[i].0 <= s[|s| - 1].0)
  {
    if s != [] && s[|s| - 1].0 > x.0 {
      InsertSorts(x, s[..|s| - 1]);
    }
  }

  lemma {:induction false} SortSorts<T>(s: seq<Item<T>>)
    ensures Sorted(SortByIndex(s)) && multiset(SortByIndex(s)) == multiset(s)
  {
    if s != [] {
      SortSorts(s[..|s| - 1]);
      InsertSorts(s[|s| - 1], SortByIndex(s[..|s| - 1]));
      InsertHolds(s[|s| - 1], SortByIndex(s[..|s| - 1]));
      assert s[..|s| - 1] + [s[|s| - 1]] == s;
    }
  }

  lemma MostAndLast<T>(u: seq<T>)
    requires u != []
    ensures multiset(u) == multiset(u[..|u| - 1]) + multiset{u[|u| - 1]}
  {
    assert u[..|u| - 1] + [u[|u| - 1]] == u;
  }

  lemma SameLast<T>(u: seq<Item<T>>, v: seq<Item<T>>)
    requires Sorted(u) && Ascending(v) && multiset(u) == multiset(v) && |u| == |v| > 0
    ensures u[|u| - 1] == v[|v| - 1]
  {
    var n := |u| - 1;
    assert u[n] in multiset(v) && v[n] in multiset(u);
    var i :| 0 <= i <= n && v[i] == u[n];
    var j :| 0 <= j <= n && u[j] == v[n];
    assert u[j].0 <= u[n].0 && v[i].0 <= v[n].0;
  }

  lemma RestHolds<T>(u: seq<T>, v: seq<T>)
    requires multiset(u) == multiset(v) && |u| == |v| > 0 && u[|u| - 1] == v[|v| - 1]
    ensures multiset(u[..|u| - 1]) == multiset(v[..|v| - 1])
  {
    MostAndLast(u);
    MostAndLast(v);
    assert multiset(u[..|u| - 1]) == multiset(u) - multiset{u[|u| - 1]};
    assert multiset(v[..|v| - 1]) == multiset(v) - multiset{v[|v| - 1]};
  }

  /** A sorted sequence of different indices is determined by its elements. */
  lemma {:induction false} SortedUnique<T>(u: seq<Item<T>>, v: seq<Item<T>>)
    requires Sorted(u) && Ascending(v) && multiset(u) == multiset(v)
    ensures u == v
  {
    assert |u| == |multiset(u)| == |multiset(v)| == |v|;
    if u != [] {
      var n := |u| - 1;
      SameLast(u, v);
      RestHolds(u, v);
      SortedUnique(u[..n], v[..n]);
      assert u[..n] + [u[n]] == u && v[..n] + [v[n]] == v;
    }
  }
}

/**
 The window-tail strategy as the program runs it, and what it reports.
 */
module WindowTail {
  import opened Seqs
  import opened Turns
  import opened TurnSelection
  import opened Compaction
  import opened Numbered

  datatype Reason = NoTokens | RequestSatisfied | AnchorsOnly | BudgetTrimmed

  datatype Proposal<T> = Proposal(
    tokens: seq<T>, indices: seq<nat>, reason: Reason, requestedBudget: nat, resultingBudget: nat,
    retainedMessages: nat, sourceMessages: nat, retainedAnchors: nat, fallback: bool)

  function AnchorIndices<T>(tokens: seq<T>, anchor: T -> bool): seq<nat> {
    if tokens == [] then []
    else
      var n := |tokens| - 1;
      AnchorIndices(tokens[..n], anchor) + if anchor(tokens[n]) then [n] else []
  }

  lemma {:induction false} AnchorIndicesExact<T>(tokens: seq<T>, anchor: T -> bool)
    ensures forall i :: i in AnchorIndices(tokens, anchor) <==> 0 <= i < |tokens| && anchor(tokens[i])
    ensures |AnchorIndices(tokens, anchor)| == Count(tokens, anchor)
  {
    if tokens != [] {
      AnchorIndicesExact(tokens[..|tokens| - 1], anchor);
    }
  }

  // ---- choosing turns ----

  /** All turns with an anchor, in order. */
  method KeepAnchors<T>(turns: seq<seq<T>>, anchor: T -> bool) returns (retained: seq<T>)
    ensures retained == Concat(Pick(turns, AnchorTurns(Anchored(turns, anchor))))
  {
    ghost var anchors := AnchorTurns(Anchored(turns, anchor));
    retained := [];
    for j := 0 to |turns|
      invariant retained == Concat(Pick(turns[..j], anchors))
    {
      assert turns[..j + 1][..j] == turns[..j];
      if HasAnchor(turns[j], anchor) {
        ConcatMore(Pick(turns[..j], anchors), turns[j]);
        retained := retained + turns[j];
      } else {
        assert Pick(turns[..j], anchors) + [] == Pick(turns[..j], anchors);
      }
    }
    assert turns[..|turns|] == turns;
  }

  /** The last turn, if it is kept. */
  function LastKept<T>(turns: seq<seq<T>>, keep: set<nat>): seq<T>
    requires turns != []
  {
    if |turns| - 1 in keep then turns[|turns| - 1] else []
  }

  lemma PickLast<T>(turns: seq<seq<T>>, keep: set<nat>)
    requires turns != []
    ensures Concat(Pick(turns, keep)) == Concat(Pick(turns[..|turns| - 1], keep)) + LastKept(turns, keep)
  {
    var n := |turns| - 1;
    ConcatMore(Pick(turns[..n], keep), turns[n]);
    assert Pick(turns[..n], keep) + [] == Pick(turns[..n], keep);
  }

  /** `many` has the tokens of `few` and those of `added`, in any order. */
  ghost predicate Adds<T>(few: seq<T>, added: seq<T>, many: seq<T>) {
    multiset(many) == multiset(few) + multiset(added)
  }

  lemma AddsBefore<T>(few: seq<T>, added: seq<T>, many: seq<T>, more: seq<T>)
    requires Adds(few, added, many)
    ensures Adds(few + more, added, many + more)
  {
  }

  lemma AddsAtEnd<T>(few: seq<T>, added: seq<T>)
    ensures Adds(few, added, few + added)
  {
  }

  lemma AddsLast<T>(few: seq<T>, added: seq<T>)
    ensures Adds(few + [], added, few + added)
  {
    assert few + [] == few;
  }

  lemma {:induction false} PickAdd<T>(turns: seq<seq<T>>, keep: set<nat>, more: set<nat>, j: nat)
    requires j < |turns| && j !in keep && more == keep + {j}
    ensures Adds(Concat(Pick(turns, keep)), turns[j], Concat(Pick(turns, more)))
  {
    var n := |turns| - 1;
    var front := turns[..n];
    var (few, many, end) := (Concat(Pick(front, keep)), Concat(Pick(front, more)), LastKept(turns, keep));
    PickLast(turns, keep);
    PickLast(turns, more);
    if j == n {
      PickAgrees(front, keep, more);
      AddsLast(few, turns[n]);
    } else {
      PickAdd(front, keep, more, j);
      assert LastKept(turns, more) == end && front[j] == turns[j];
      AddsBefore(few, turns[j], many, end);
    }
  }

  /** `retained` holds the tokens of the kept turns, in any order. */
  ghost predicate Gathered<T>(turns: seq<seq<T>>, keep: set<nat>, retained: seq<T>) {
    forall k {:trigger Holds(turns, k, retained)} :: k == keep ==> Holds(turns, k, retained)
  }

  ghost predicate Holds<T>(turns: seq<seq<T>>, keep: set<nat>, retained: seq<T>) {
    multiset(retained) == multiset(Concat(Pick(turns, keep)))
  }

  lemma SameAdded<T>(few: seq<T>, same: seq<T>, added: seq<T>, many: seq<T>)
    requires multiset(same) == multiset(few) && Adds(few, added, many)
    ensures multiset(same + added) == multiset(many)
  {
  }

  lemma GatherMore<T>(turns: seq<seq<T>>, keep: set<nat>, retained: seq<T>, j: nat)
    requires Gathered(turns, keep, retained) && j < |turns| && j !in keep
    ensures Gathered(turns, keep + {j}, retained + turns[j])
  {
    assert Holds(turns, keep, retained);
    PickAdd(turns, keep, keep + {j}, j);
    AddsAtEnd(retained, turns[j]);
    SameAdded(Concat(Pick(turns, keep)), retained, turns[j], Concat(Pick(turns, keep + {j})));
    assert Holds(turns, keep + {j}, retained + turns[j]);
  }

  /** The first `j` turns are undecided, except that those with an anchor are kept; `goal` is where it leads. */
  ghost predicate Choosing(sizes: seq<nat>, anchored: seq<bool>, budget: nat, goal: set<nat>, keep: set<nat>, j: nat,
                           used: nat)
  {
    && j <= |sizes| == |anchored|
    && (forall i {:trigger anchored[i]} :: 0 <= i < j ==> (i in keep <==> anchored[i]))
    && keep + Newest(sizes, anchored, j, used, budget) == goal
  }

  lemma ChoosingStep(sizes: seq<nat>, anchored: seq<bool>, budget: nat, goal: set<nat>, keep: set<nat>, j: nat, used: nat)
    requires Choosing(sizes, anchored, budget, goal, keep, j + 1, used)
    ensures j in keep <==> anchored[j]
    ensures if !anchored[j] && used + sizes[j] <= budget
            then Choosing(sizes, anchored, budget, goal, keep + {j}, j, used + sizes[j])
            else Choosing(sizes, anchored, budget, goal, keep, j, used)
  {
    if !anchored[j] && used + sizes[j] <= budget {
      var rest := Newest(sizes, anchored, j, used + sizes[j], budget);
      assert keep + ({j} + rest) == keep + {j} + rest;
    }
  }

  /** Of the other turns, from the newest on, each that still fits. */
  method KeepNewest<T>(turns: seq<seq<Item<T>>>, anchors: seq<nat>, ghost source: seq<T>, ghost anchor: T -> bool,
                       first: seq<Item<T>>, budget: nat)
    returns (retained: seq<Item<T>>)
    requires Concat(turns) == Enumerate(source)
    requires forall i :: i in anchors <==> 0 <= i < |source| && anchor(source[i])
    requires first == Concat(Pick(turns, AnchorTurns(Anchored(turns, Lift(anchor)))))
    ensures Gathered(turns, KeptTurns(turns, Lift(anchor), budget), retained)
  {
    ghost var keep := AnchorTurns(Anchored(turns, Lift(anchor)));
    retained := first;
    var used: nat := |first|;
    var j: nat := |turns|;
    PickedSize(turns, keep);
    while j > 0
      invariant j <= |turns|
      invariant Gathering(turns, Lift(anchor), budget, keep, retained, j, used)
    {
      ghost var (kept, gathered, size) := (keep, retained, used);
      j := j - 1;
      IndexedAnchor(source, turns, j, anchor, anchors);
      if !Touches(turns[j], anchors) && used + |turns[j]| <= budget {
        used := used + |turns[j]|;
        retained := retained + turns[j];
        keep := keep + {j};
      }
      GatheringStep(turns, Lift(anchor), budget, j, kept, gathered, size, keep, retained, used);
    }
    GatheringEnds(turns, Lift(anchor), budget, keep, retained, used);
  }

  /** The turns from `j` on are decided: what is kept of them is gathered. */
  ghost predicate Gathering<T>(turns: seq<seq<T>>, anchor: T -> bool, budget: nat, keep: set<nat>, retained: seq<T>,
                               j: nat, used: nat)
  {
    && Gathered(turns, keep, retained)
    && Choosing(Sizes(turns), Anchored(turns, anchor), budget, KeptTurns(turns, anchor, budget), keep, j, used)
  }

  lemma GatheringStep<T>(turns: seq<seq<T>>, anchor: T -> bool, budget: nat, j: nat, keep: set<nat>, retained: seq<T>,
                         used: nat, more: set<nat>, gathered: seq<T>, size: nat)
    requires j < |turns| && Gathering(turns, anchor, budget, keep, retained, j + 1, used)
    requires if !HasAnchor(turns[j], anchor) && used + |turns[j]| <= budget
             then more == keep + {j} && gathered == retained + turns[j] && size == used + |turns[j]|
             else more == keep && gathered == retained && size == used
    ensures Gathering(turns, anchor, budget, more, gathered, j, size)
  {
    var (sizes, anchored) := (Sizes(turns), Anchored(turns, anchor));
    ChoosingStep(sizes, anchored, budget, KeptTurns(turns, anchor, budget), keep, j, used);
    if !anchored[j] && used + sizes[j] <= budget {
      GatherMore(turns, keep, retained, j);
    }
  }

  lemma GatheringEnds<T>(turns: seq<seq<T>>, anchor: T -> bool, budget: nat, keep: set<nat>, retained: seq<T>, used: nat)
    requires Gathering(turns, anchor, budget, keep, retained, 0, used)
    ensures Gathered(turns, KeptTurns(turns, anchor, budget), retained)
  {
    assert keep + Newest(Sizes(turns), Anchored(turns, anchor), 0, used, budget) == keep;
  }

  predicate Touches<T>(turn: seq<Item<T>>, anchors: seq<nat>) {
    exists i :: 0 <= i < |turn| && turn[i].0 in anchors
  }

  /** Looking the indices up in the anchor list finds the same turns as looking at the tokens. */
  lemma IndexedAnchor<T>(source: seq<T>, turns: seq<seq<Item<T>>>, j: nat, anchor: T -> bool, anchors: seq<nat>)
    requires Concat(turns) == Enumerate(source) && j < |turns|
    requires forall i :: i in anchors <==> 0 <= i < |source| && anchor(source[i])
    ensures HasAnchor(turns[j], Lift(anchor)) <==> Touches(turns[j], anchors)
  {
    TurnFrom(turns, j);
    forall i | 0 <= i < |turns[j]|
      ensures turns[j][i].0 < |source| && turns[j][i].1 == source[turns[j][i].0]
    {
      assert turns[j][i] in turns[j];
      assert turns[j][i] in Enumerate(source);
    }
    forall i | 0 <= i < |turns[j]|
      ensures Lift(anchor)(turns[j][i]) <==> turns[j][i].0 in anchors
    {
    }
  }

  lemma {:induction false} TurnFrom<T>(turns: seq<seq<T>>, j: nat)
    requires j < |turns|
    ensures forall x :: x in turns[j] ==> x in Concat(turns)
  {
    if j < |turns| - 1 {
      TurnFrom(turns[..|turns| - 1], j);
    }
  }

  // ---- the strategy ----

  /** The items that stay, in the order of the source. */
  method Choose<T>(source: seq<T>, boundary: T -> bool, anchor: T -> bool, anchors: seq<nat>, requested: nat)
    returns (out: seq<Item<T>>)
    requires |source| > requested > 0
    requires forall i :: i in anchors <==> 0 <= i < |source| && anchor(source[i])
    ensures out == Compact(Enumerate(source), Lift(boundary), Lift(anchor), requested)
  {
    var items := Enumerate(source);
    var budget := Budget(requested);
    var turns := SplitTurns(items, Lift(boundary));
    SplitIsWell(items, Lift(boundary));
    NoEmptyTurn(turns, Lift(boundary));
    var kept := KeepAnchors(turns, Lift(anchor));
    var retained := KeepNewest(turns, anchors, source, anchor, kept, budget);
    KeptExact(Sizes(turns), Anchored(turns, Lift(anchor)), budget);
    NothingKept(turns, KeptTurns(turns, Lift(anchor), budget), retained);
    if retained == [] {
      out := LastResort(turns, budget);
    } else {
      OrderKept(items, Lift(boundary), Lift(anchor), requested);
      SortSorts(retained);
      assert Holds(turns, KeptTurns(turns, Lift(anchor), budget), retained);
      out := SortByIndex(retained);
      SortedUnique(out, Concat(Pick(turns, KeptTurns(turns, Lift(anchor), budget))));
    }
  }

  /** No token was gathered exactly if no turn was kept: turns are not empty. */
  lemma NothingKept<T>(turns: seq<seq<Item<T>>>, keep: set<nat>, retained: seq<Item<T>>)
    requires Gathered(turns, keep, retained) && forall j :: j in keep ==> j < |turns| && turns[j] != []
    ensures retained == [] <==> keep == {}
  {
    assert Holds(turns, keep, retained);
    assert |retained| == |multiset(retained)| == |Concat(Pick(turns, keep))|;
    if keep == {} {
      PickNone(turns);
    } else {
      var j :| j in keep;
      PickedTurn(turns, keep, j);
    }
  }

  lemma {:induction false} PickedTurn<T>(turns: seq<seq<T>>, keep: set<nat>, j: nat)
    requires j < |turns| && j in keep
    ensures |Concat(Pick(turns, keep))| >= |turns[j]|
  {
    PickLast(turns, keep);
    if j < |turns| - 1 {
      PickedTurn(turns[..|turns| - 1], keep, j);
    }
  }

  function Member(anchors: seq<nat>): nat -> bool {
    i => i in anchors
  }

  lemma {:induction false} CountByIndex<T>(source: seq<T>, anchor: T -> bool, anchors: seq<nat>, out: seq<Item<T>>)
    requires forall i :: i in anchors <==> 0 <= i < |source| && anchor(source[i])
    requires forall k :: 0 <= k < |out| ==> out[k].0 < |source| && out[k].1 == source[out[k].0]
    ensures Count(Indices(out), Member(anchors)) == Count(Texts(out), anchor)
  {
    if out != [] {
      var front := out[..|out| - 1];
      assert Indices(out)[..|out| - 1] == Indices(front) && Texts(out)[..|out| - 1] == Texts(front);
      CountByIndex(source, anchor, anchors, front);
    }
  }

  lemma {:induction false} Counted<T>(s: seq<T>, anchor: T -> bool)
    requires Count(s, anchor) > 0
    ensures HasAnchor(s, anchor)
  {
    if !anchor(s[|s| - 1]) {
      Counted(s[..|s| - 1], anchor);
    }
  }

  method CountAnchors(indices: seq<nat>, anchors: seq<nat>) returns (n: nat)
    ensures n == Count(indices, Member(anchors))
  {
    n := 0;
    for k := 0 to |indices|
      invariant n == Count(indices[..k], Member(anchors))
    {
      assert indices[..k + 1][..k] == indices[..k];
      if indices[k] in anchors {
        n := n + 1;
      }
    }
    assert indices[..|indices|] == indices;
  }

  /** The tokens are the end of the source, and the indices say so. */
  ghost predicate EndOf<T>(source: seq<T>, tokens: seq<T>, indices: seq<nat>) {
    && 0 < |tokens| <= |source| && |indices| == |tokens|
    && tokens == source[|source| - |tokens|..]
    && (forall i :: 0 <= i < |indices| ==> indices[i] == |source| - |indices| + i)
  }

  lemma EndedBy<T>(source: seq<T>, out: seq<Item<T>>)
    requires 0 < |out| <= |source|
    requires forall i :: 0 <= i < |out| ==> out[i] == (|source| - |out| + i, source[|source| - |out| + i])
    ensures EndOf(source, Texts(out), Indices(out))
  {
  }

  /** The strategy: the output is the compaction of the source, the indices say where each token comes from, every
      anchor is retained, and fallback and reason say whether the output is over what was requested. */
  method Apply<T>(source: seq<T>, boundary: T -> bool, anchor: T -> bool, target: nat) returns (p: Proposal<T>)
    ensures p.tokens == Compact(source, boundary, anchor, Requested(target))
    ensures |p.indices| == |p.tokens|
    ensures forall i, j :: 0 <= i < j < |p.indices| ==> p.indices[i] < p.indices[j]
    ensures forall i :: 0 <= i < |p.indices| ==> p.indices[i] < |source| && p.tokens[i] == source[p.indices[i]]
    ensures p.requestedBudget == Requested(target) && p.resultingBudget == |p.tokens|
    ensures |source| <= Requested(target) ==> p.tokens == source
    ensures p.fallback <==> |p.tokens| > Requested(target)
    ensures p.reason == (if source == [] then NoTokens
                         else if |source| <= Requested(target) then RequestSatisfied
                         else if |p.tokens| > Requested(target) then AnchorsOnly
                         else BudgetTrimmed)
    ensures p.retainedAnchors == Count(source, anchor)
    ensures p.sourceMessages == |Split(source, boundary)| && p.retainedMessages == |Split(p.tokens, boundary)|
    ensures |source| > Requested(target)
            && KeptTurns(Split(source, boundary), anchor, Budget(Requested(target))) == {} ==>
              EndOf(source, p.tokens, p.indices)
  {
    var requested := Requested(target);
    var anchors := AnchorIndices(source, anchor);
    AnchorIndicesExact(source, anchor);
    if source == [] {
      return Proposal([], [], NoTokens, requested, 0, 0, 0, 0, false);
    }
    var messages := SplitTurns(source, boundary);
    if |source| <= requested {
      var items := Enumerate(source);
      assert Texts(items) == source;
      return Proposal(source, Indices(items), RequestSatisfied, requested, |source|, |messages|, |messages|, |anchors|, false);
    }
    var out := Choose(source, boundary, anchor, anchors, requested);
    if KeptTurns(Split(source, boundary), anchor, Budget(requested)) == {} {
      LastIndices(source, boundary, anchor, requested);
      EndedBy(source, out);
    }
    p := Report(source, boundary, anchor, anchors, requested, out, |messages|);
  }

  method Report<T>(source: seq<T>, boundary: T -> bool, ghost anchor: T -> bool, anchors: seq<nat>, requested: nat,
                   out: seq<Item<T>>, messages: nat) returns (p: Proposal<T>)
    requires |source| > requested > 0 && anchors == AnchorIndices(source, anchor)
    requires out == Compact(Enumerate(source), Lift(boundary), Lift(anchor), requested)
    ensures p.tokens == Compact(source, boundary, anchor, requested) == Texts(out) && p.indices == Indices(out)
    ensures forall i, j :: 0 <= i < j < |p.indices| ==> p.indices[i] < p.indices[j]
    ensures forall i :: 0 <= i < |p.indices| ==> p.indices[i] < |source| && p.tokens[i] == source[p.indices[i]]
    ensures p == Proposal(Texts(out), Indices(out), if |out| > requested then AnchorsOnly else BudgetTrimmed,
                          requested, |out|, |Split(p.tokens, boundary)|, messages, Count(source, anchor), |out| > requested)
  {
    AnchorIndicesExact(source, anchor);
    CompactTexts(source, boundary, anchor, requested);
    CompactedInOrder(source, boundary, anchor, requested);
    AnchorsSurvive(source, boundary, anchor, requested);
    CountByIndex(source, anchor, anchors, out);
    var tokens, indices := Texts(out), Indices(out);
    var retained := CountAnchors(indices, anchors);
    if retained > 0 {
      Counted(indices, Member(anchors));
    }
    var again := SplitTurns(tokens, boundary);
    var reason :=
      if |out| > requested || (anchors != [] && forall k :: 0 <= k < |indices| ==> indices[k] !in anchors) then AnchorsOnly
      else BudgetTrimmed;
    return Proposal(tokens, indices, reason, requested, |out|, |again|, messages, retained, |out| > requested);
  }

  // ---- strings ----

  predicate Contains(s: string, p: string) {
    exists i :: 0 <= i <= |s| && p <= s[i..]
  }

  predicate IsRoleBoundary(token: string) {
    Contains(token, "<start_of_turn") || token == "</s>"
  }

  predicate IsAnchor(token: string) {
    || "<start_of_turn>system" <= token
    || "<start_of_turn>tool" <= token
    || "<system" <= token
    || "<|system|>" <= token
  }

  /** The strategy on the tokens of a conversation. Compacting the result again for the same target gives the same
      tokens. */
  method ApplyWindowTailStrategy(source: seq<string>, target: nat) returns (p: Proposal<string>)
    ensures p.tokens == Compact(source, IsRoleBoundary, IsAnchor, Requested(target))
    ensures Compact(p.tokens, IsRoleBoundary, IsAnchor, Requested(target)) == p.tokens
    ensures p.retainedAnchors == Count(source, IsAnchor)
    ensures p.fallback <==> |p.tokens| > Requested(target)
    ensures |source| > Requested(target)
            && KeptTurns(Split(source, IsRoleBoundary), IsAnchor, Budget(Requested(target))) == {} ==>
              EndOf(source, p.tokens, p.indices)
  {
    Idempotent(source, IsRoleBoundary, IsAnchor, Requested(target));
    p := Apply(source, IsRoleBoundary, IsAnchor, target);
  }

  /** What is recognized: whatever follows these beginnings, and in a boundary whatever comes before. */
  lemma Recognized(before: string, after: string)
    ensures IsAnchor("<start_of_turn>system" + after) && IsAnchor("<start_of_turn>tool" + after)
    ensures IsAnchor("<system" + after) && IsAnchor("<|system|>" + after)
    ensures !IsAnchor("<start_of_turn>user" + after) && !IsAnchor("<start_of_turn>model" + after)
    ensures IsRoleBoundary(before + "<start_of_turn" + after) && IsRoleBoundary("</s>")
  {
    var token := before + "<start_of_turn" + after;
    assert token[|before|..] == "<start_of_turn" + after;
    assert "<start_of_turn" <= token[|before|..];
    var (user, model) := ("<start_of_turn>user" + after, "<start_of_turn>model" + after);
    assert user[15] == 'u' && model[15] == 'm' && user[2] == 't' && model[2] == 't' && user[1] == 's' && model[1] == 's';
    assert "<start_of_turn>system"[15] == 's' && "<start_of_turn>tool"[15] == 't' && "<system"[2] == 'y' && "<|system|>"[1] == '|';
  }
}
