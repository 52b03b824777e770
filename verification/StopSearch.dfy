/**
 Stop sequences in a byte stream: where one occurs first, and how much of the end may still become one.

 The search is over plain sequences. `WholeCut` says what "buffer everything and search" would find.
 */
module StopSearch {
  import opened Options
  import opened Seqs
  import opened Utf8

  type Stops = seq<seq<Byte>>

  const MAX_STOP_SEQUENCES: nat := 4
  const MAX_STOP_BYTES: nat := 256

  predicate GoodStops(stops: Stops) {
    forall k :: 0 <= k < |stops| ==> 1 <= |stops[k]| <= MAX_STOP_BYTES
  }

  predicate OccursAt(s: seq<Byte>, t: seq<Byte>, i: nat) {
    i + |t| <= |s| && s[i..i + |t|] == t
  }

  predicate Hit(stops: Stops, s: seq<Byte>, i: nat, k: nat) {
    k < |stops| && OccursAt(s, stops[k], i)
  }

  predicate HasStop(stops: Stops, s: seq<Byte>) {
    exists i: nat, k: nat :: i <= |s| && k < |stops| && Hit(stops, s, i, k)
  }

  /** The leftmost occurrence, and among stops that start there the first in the list. */
  predicate FirstHit(stops: Stops, s: seq<Byte>, i: nat, k: nat) {
    && Hit(stops, s, i, k)
    && forall j: nat, l: nat {:trigger Hit(stops, s, j, l)} ::
         j <= |s| && l < |stops| && Hit(stops, s, j, l) ==> i < j || (i == j && k <= l)
  }

  /** The last `n` bytes begin a stop and do not complete it. */
  predicate MayBecome(stops: Stops, s: seq<Byte>, n: nat) {
    n <= |s| && exists k: nat :: k < |stops| && n < |stops[k]| && stops[k][..n] == s[|s| - n..]
  }

  predicate LongestMayBecome(stops: Stops, s: seq<Byte>, n: nat) {
    && (n == 0 || MayBecome(stops, s, n))
    && forall m: nat {:trigger MayBecome(stops, s, m)} :: m > n && m <= |s| ==> !MayBecome(stops, s, m)
  }

  // ---- a stream that grows ----

  lemma HitInHead(stops: Stops, s: seq<Byte>, piece: seq<Byte>, i: nat, k: nat)
    requires Hit(stops, s + piece, i, k) && i + |stops[k]| <= |s|
    ensures Hit(stops, s, i, k)
  {
    assert s[i..i + |stops[k]|] == (s + piece)[i..i + |stops[k]|];
  }

  lemma HitInMore(stops: Stops, s: seq<Byte>, piece: seq<Byte>, i: nat, k: nat)
    requires Hit(stops, s, i, k)
    ensures Hit(stops, s + piece, i, k)
  {
    assert s[i..i + |stops[k]|] == (s + piece)[i..i + |stops[k]|];
  }

  /** A stop that is new in `s + piece` begins in what may become one. */
  lemma NewHitOverlaps(stops: Stops, s: seq<Byte>, piece: seq<Byte>, held: nat, i: nat, k: nat)
    requires GoodStops(stops) && !HasStop(stops, s)
    requires LongestMayBecome(stops, s, held) && Hit(stops, s + piece, i, k)
    ensures i >= |s| - held
  {
    var all := s + piece;
    var t := stops[k];
    if i < |s| {
      if i + |t| <= |s| {
        HitInHead(stops, s, piece, i, k);
        assert false;
      }
      var n := |s| - i;
      assert t[..n] == all[i..i + |t|][..n] == s[i..];
      assert MayBecome(stops, s, n);
    }
  }

  /** What may become a stop after `piece` is no longer than what may before, and `piece`. */
  lemma HeldGrows(stops: Stops, s: seq<Byte>, piece: seq<Byte>, held: nat, n: nat)
    requires LongestMayBecome(stops, s, held) && MayBecome(stops, s + piece, n)
    ensures n <= held + |piece|
  {
    var all := s + piece;
    if n > |piece| {
      var k: nat :| k < |stops| && n < |stops[k]| && stops[k][..n] == all[|all| - n..];
      var m := n - |piece|;
      assert stops[k][..m] == all[|all| - n..][..m] == s[|s| - m..];
      assert MayBecome(stops, s, m);
    }
  }

  /** Searching the end of a stream that holds everything that may become a stop finds what searching all finds. */
  lemma HitInTail(stops: Stops, s: seq<Byte>, from: nat, i: nat, k: nat)
    requires from <= |s|
    ensures Hit(stops, s[from..], i, k) <==> i <= |s[from..]| && Hit(stops, s, from + i, k)
  {
    if k < |stops| && from + i + |stops[k]| <= |s| {
      assert s[from..][i..i + |stops[k]|] == s[from + i..from + i + |stops[k]|];
    }
  }

  lemma MayBecomeInTail(stops: Stops, s: seq<Byte>, from: nat, n: nat)
    requires from <= |s| && n <= |s| - from
    ensures MayBecome(stops, s[from..], n) <==> MayBecome(stops, s, n)
  {
    assert s[from..][|s| - from - n..] == s[|s| - n..];
  }

  lemma TailFindsFirst(stops: Stops, s: seq<Byte>, from: nat, i: nat, k: nat)
    requires from <= |s| && FirstHit(stops, s[from..], i, k)
    requires forall j: nat, l: nat :: Hit(stops, s, j, l) ==> j >= from
    ensures FirstHit(stops, s, from + i, k)
  {
    HitInTail(stops, s, from, i, k);
    forall j: nat, l: nat | j <= |s| && l < |stops| && Hit(stops, s, j, l)
      ensures from + i < j || (from + i == j && k <= l)
    {
      HitInTail(stops, s, from, j - from, l);
    }
  }

  lemma TailFindsNone(stops: Stops, s: seq<Byte>, from: nat)
    requires from <= |s| && !HasStop(stops, s[from..])
    requires forall j: nat, l: nat :: Hit(stops, s, j, l) ==> j >= from
    ensures !HasStop(stops, s)
  {
    forall j: nat, l: nat | j <= |s| && l < |stops|
      ensures !Hit(stops, s, j, l)
    {
      if j >= from {
        HitInTail(stops, s, from, j - from, l);
        assert !Hit(stops, s[from..], j - from, l);
      }
    }
  }

  lemma TailHoldsLongest(stops: Stops, s: seq<Byte>, from: nat, n: nat)
    requires from <= |s| && LongestMayBecome(stops, s[from..], n)
    requires forall m: nat :: MayBecome(stops, s, m) ==> m <= |s| - from
    ensures LongestMayBecome(stops, s, n)
  {
    MayBecomeInTail(stops, s, from, n);
    forall m: nat | n < m <= |s|
      ensures !MayBecome(stops, s, m)
    {
      if m <= |s| - from {
        MayBecomeInTail(stops, s, from, m);
      }
    }
  }

  // ---- the search over everything ----

  /** The first stop in the list, from the `k`-th on, that occurs at `i`. */
  function StopAt(stops: Stops, s: seq<Byte>, i: nat, k: nat): (r: Option<nat>)
    requires k <= |stops|
    ensures r.None? ==> forall l :: k <= l < |stops| ==> !Hit(stops, s, i, l)
    ensures r.Some? ==> k <= r.value && Hit(stops, s, i, r.value) && forall l :: k <= l < r.value ==> !Hit(stops, s, i, l)
    decreases |stops| - k
  {
    if k == |stops| then None else if Hit(stops, s, i, k) then Some(k) else StopAt(stops, s, i, k + 1)
  }

  /** The first position from `i` on at which a stop occurs. */
  function Search(stops: Stops, s: seq<Byte>, i: nat): (r: Option<nat>)
    requires i <= |s|
    ensures r.None? ==> forall j: nat, l: nat {:trigger Hit(stops, s, j, l)} :: i <= j <= |s| ==> !Hit(stops, s, j, l)
    ensures r.Some? ==>
              && i <= r.value <= |s| && StopAt(stops, s, r.value, 0).Some?
              && forall j: nat, l: nat {:trigger Hit(stops, s, j, l)} :: i <= j < r.value ==> !Hit(stops, s, j, l)
    decreases |s| - i
  {
    if StopAt(stops, s, i, 0).Some? then Some(i)
    else if i == |s| then None
    else Search(stops, s, i + 1)
  }

  /** Where the text ends if everything is searched at once. */
  function WholeCut(stops: Stops, s: seq<Byte>): (cut: nat)
    ensures cut <= |s|
  {
    match Search(stops, s, 0)
    case Some(i) => i
    case None => |s|
  }

  /** There is a stop exactly if the search finds one, and the first occurrence is the one it finds. */
  lemma SearchIsExact(stops: Stops, s: seq<Byte>)
    ensures HasStop(stops, s) <==> Search(stops, s, 0).Some?
    ensures HasStop(stops, s) ==> FirstHit(stops, s, WholeCut(stops, s), StopAt(stops, s, WholeCut(stops, s), 0).value)
  {
    if Search(stops, s, 0).Some? {
      var i := Search(stops, s, 0).value;
      assert Hit(stops, s, i, StopAt(stops, s, i, 0).value);
    }
  }

  lemma FirstHitUnique(stops: Stops, s: seq<Byte>, i: nat, k: nat, j: nat, l: nat)
    requires FirstHit(stops, s, i, k) && FirstHit(stops, s, j, l)
    ensures i == j && k == l
  {
    assert Hit(stops, s, i, k) && Hit(stops, s, j, l);
  }

  lemma FirstHitCuts(stops: Stops, s: seq<Byte>, i: nat, k: nat)
    requires FirstHit(stops, s, i, k)
    ensures HasStop(stops, s) && WholeCut(stops, s) == i
  {
    assert Hit(stops, s, i, k);
    SearchIsExact(stops, s);
    FirstHitUnique(stops, s, i, k, WholeCut(stops, s), StopAt(stops, s, WholeCut(stops, s), 0).value);
  }

  // ---- independence of the split ----

  /** Whatever part of a stop already holds a stop, holds one at its beginning. */
  predicate Free(stops: Stops) {
    forall l: nat, n: nat {:trigger stops[l][..n]} ::
      l < |stops| && n <= |stops[l]| && HasStop(stops, stops[l][..n]) ==> WholeCut(stops, stops[l][..n]) == 0
  }

  ghost predicate SameCut(stops: Stops, s: seq<Byte>, more: seq<Byte>) {
    HasStop(stops, s) ==> HasStop(stops, s + more) && WholeCut(stops, s + more) == WholeCut(stops, s)
  }

  /** Exactly then it does not matter when the stream is first searched. */
  lemma CutIndependentExactly(stops: Stops)
    requires GoodStops(stops)
    ensures Free(stops) <==> forall s, more :: SameCut(stops, s, more)
  {
    if Free(stops) {
      forall s, more
        ensures SameCut(stops, s, more)
      {
        if HasStop(stops, s) {
          CutIndependent(stops, s, more);
        }
      }
    } else {
      var l: nat, n: nat :| l < |stops| && n <= |stops[l]|
                            && HasStop(stops, stops[l][..n]) && WholeCut(stops, stops[l][..n]) != 0;
      StopCutsAtOnce(stops, l, n);
      assert !SameCut(stops, stops[l][..n], stops[l][n..]);
    }
  }

  /** A stop that arrives at once is cut where it begins. */
  lemma StopCutsAtOnce(stops: Stops, l: nat, n: nat)
    requires l < |stops| && n <= |stops[l]|
    ensures HasStop(stops, stops[l]) && WholeCut(stops, stops[l]) == 0
    ensures stops[l][..n] + stops[l][n..] == stops[l]
  {
    assert Hit(stops, stops[l], 0, l);
    SearchIsExact(stops, stops[l]);
  }

  lemma CutIndependent(stops: Stops, s: seq<Byte>, more: seq<Byte>)
    requires Free(stops) && HasStop(stops, s)
    ensures HasStop(stops, s + more) && WholeCut(stops, s + more) == WholeCut(stops, s)
  {
    var all := s + more;
    SearchIsExact(stops, s);
    var i := WholeCut(stops, s);
    var k := StopAt(stops, s, i, 0).value;
    HitInMore(stops, s, more, i, k);
    assert Hit(stops, all, i, k);
    SearchIsExact(stops, all);
    var j := WholeCut(stops, all);
    var l := StopAt(stops, all, j, 0).value;
    if j < i {
      EarlierStop(stops, s, more, i, k, j, l);
    }
  }

  /** A stop that is only complete later and begins before the first one found: the stop found lies in a part of it. */
  lemma EarlierStop(stops: Stops, s: seq<Byte>, more: seq<Byte>, i: nat, k: nat, j: nat, l: nat)
    requires Free(stops) && FirstHit(stops, s, i, k) && Hit(stops, s + more, j, l)
    ensures j >= i
  {
    var all := s + more;
    if j < i {
      if j + |stops[l]| <= |s| {
        HitInHead(stops, s, more, j, l);
        assert false;
      }
      var n := |s| - j;
      assert stops[l][..n] == all[j..j + |stops[l]|][..n] == s[j..];
      HitInTail(stops, s, j, i - j, k);
      assert HasStop(stops, stops[l][..n]);
      SearchIsExact(stops, s[j..]);
      HitInTail(stops, s, j, 0, StopAt(stops, s[j..], 0, 0).value);
      assert false;
    }
  }

  /** No stop occurs strictly inside another: after its beginning and before its end. */
  predicate NotNested(stops: Stops) {
    forall k, l, p: nat :: 0 <= k < |stops| && 0 <= l < |stops| && 0 < p && p + |stops[k]| < |stops[l]| ==>
      !OccursAt(stops[l], stops[k], p)
  }

  lemma NotNestedIsFree(stops: Stops)
    requires NotNested(stops)
    ensures Free(stops)
  {
    forall l: nat, n: nat | l < |stops| && n <= |stops[l]| && HasStop(stops, stops[l][..n])
      ensures WholeCut(stops, stops[l][..n]) == 0
    {
      var part := stops[l][..n];
      SearchIsExact(stops, part);
      var i := WholeCut(stops, part);
      var k := StopAt(stops, part, i, 0).value;
      if n == |stops[l]| {
        assert part == stops[l];
        StopCutsAtOnce(stops, l, n);
      } else if i > 0 {
        assert part[i..i + |stops[k]|] == stops[l][i..i + |stops[k]|];
        assert OccursAt(stops[l], stops[k], i);
        assert false;
      }
    }
  }

  /** "a", "b" and "abc" nest and are free: what holds a "b" of "abc" holds its "a" before. */
  lemma NestedMayBeFree() returns (stops: Stops)
    ensures GoodStops(stops) && !NotNested(stops) && Free(stops)
  {
    stops := [[97], [98], [97, 98, 99]];
    assert OccursAt(stops[2], stops[1], 1);
    forall l: nat, n: nat | l < |stops| && n <= |stops[l]| && HasStop(stops, stops[l][..n])
      ensures WholeCut(stops, stops[l][..n]) == 0
    {
      var part := stops[l][..n];
      if n > 0 && l != 1 {
        assert part[0..1] == [97];
        assert Hit(stops, part, 0, 0);
      } else if n > 0 {
        assert Hit(stops, part, 0, 1);
      }
      SearchIsExact(stops, part);
    }
  }

  /** "b" and "abc" are not free: "abc" is cut at 1 when "ab" comes first, and at 0 when all comes at once. */
  lemma NestedStopsDepend() returns (stops: Stops, s: seq<Byte>, more: seq<Byte>)
    ensures GoodStops(stops) && !Free(stops) && !SameCut(stops, s, more)
  {
    stops, s, more := [[98], [97, 98, 99]], [97, 98], [99];
    assert s[1..2] == [98] && (s + more)[0..3] == [97, 98, 99] && s[0..1] == [97] && (s + more)[0..1] == [97];
    assert Hit(stops, s, 1, 0) && Hit(stops, s + more, 0, 1);
    assert StopAt(stops, s, 0, 0).None?;
    SearchIsExact(stops, s);
    SearchIsExact(stops, s + more);
    assert stops[1][..2] == s;
  }
}
