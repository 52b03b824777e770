/**
 The generation frontier: streaming text out of byte pieces, stopping at the first stop sequence.

 `stream`, `boundaries` and `rendered` are everything that came in, all token boundaries and all text decoded so
 far. The program keeps only the end of each; the class invariant says that this end is enough.
 */
module Frontier {
  import opened Options
  import opened Seqs
  import opened Utf8
  import opened StopSearch

  datatype FinishReason = Stopped | Length

  datatype Alignment = TokenAligned | CrossToken | IntraToken

  datatype Control = Continue | Stop | Refused

  /** Where the stop lies among token boundaries. */
  function Classify(boundaries: seq<nat>, start: nat, end: nat): Alignment {
    if start in boundaries && end in boundaries then TokenAligned
    else if exists b :: b in boundaries && start < b < end then CrossToken
    else IntraToken
  }

  function AtLeast(boundaries: seq<nat>, n: nat): seq<nat> {
    if boundaries == [] then []
    else
      var last := boundaries[|boundaries| - 1];
      AtLeast(boundaries[..|boundaries| - 1], n) + if last >= n then [last] else []
  }

  lemma {:induction false} AtLeastExact(boundaries: seq<nat>, n: nat)
    ensures forall b :: b in AtLeast(boundaries, n) <==> b in boundaries && b >= n
  {
    if boundaries != [] {
      var front, last := boundaries[..|boundaries| - 1], boundaries[|boundaries| - 1];
      AtLeastExact(front, n);
      assert forall b :: b in boundaries <==> b in front || b == last;
    }
  }

  /** The text that is shown: leading whitespace is left out unless the continuation is raw. */
  function Shown(raw: bool, t: Text): Text {
    if raw then t else TrimStart(t)
  }

  /** A raw continuation is shown as it is; else exactly the whitespace before the first other character is left out. */
  lemma ShownExactly(raw: bool, t: Text)
    ensures var r := Shown(raw, t);
            && |r| <= |t| && t[|t| - |r|..] == r
            && (raw ==> r == t)
            && (!raw ==> (forall i :: 0 <= i < |t| - |r| ==> Whitespace(t[i])) && (r != [] ==> !Whitespace(r[0])))
  {
    TrimExact(t);
  }

  predicate KeptBoundary(kept: seq<nat>, all: seq<nat>, offset: nat, b: nat) {
    (b in kept ==> b in all) && (b in all && b >= offset ==> b in kept)
  }

  /** The boundaries kept are boundaries, and all that matter from `offset` on. */
  ghost predicate KeepsBoundaries(kept: seq<nat>, all: seq<nat>, offset: nat) {
    forall b: nat {:trigger KeptBoundary(kept, all, offset, b)} :: KeptBoundary(kept, all, offset, b)
  }

  predicate EndsWith(boundaries: seq<nat>, end: nat) {
    boundaries != [] && boundaries[|boundaries| - 1] == end
  }

  lemma RetainKeeps(kept: seq<nat>, all: seq<nat>, from: nat, offset: nat, end: nat)
    requires KeepsBoundaries(kept, all, from) && EndsWith(kept, end) && from <= offset <= end
    ensures KeepsBoundaries(AtLeast(kept, offset), all, offset) && EndsWith(AtLeast(kept, offset), end)
  {
    AtLeastExact(kept, offset);
    forall b: nat
      ensures KeptBoundary(AtLeast(kept, offset), all, offset, b)
    {
      assert KeptBoundary(kept, all, from, b);
    }
  }

  lemma OneMoreBoundary(kept: seq<nat>, all: seq<nat>, offset: nat, b: nat)
    requires KeepsBoundaries(kept, all, offset)
    ensures KeepsBoundaries(kept + [b], all + [b], offset)
  {
    forall x: nat
      ensures KeptBoundary(kept + [b], all + [b], offset, x)
    {
      assert KeptBoundary(kept, all, offset, x);
    }
  }

  lemma ClassifiedAlike(kept: seq<nat>, all: seq<nat>, offset: nat, start: nat, end: nat)
    requires KeepsBoundaries(kept, all, offset) && offset <= start <= end
    ensures Classify(kept, start, end) == Classify(all, start, end)
  {
    forall b: nat | start <= b <= end
      ensures b in kept <==> b in all
    {
      assert KeptBoundary(kept, all, offset, b);
    }
  }

  /** What is held back beyond what may become a stop is an unfinished character. */
  ghost predicate HeldBack(pending: seq<Byte>, held: nat) {
    && held <= |pending| <= held + 3
    && forall h: nat {:trigger Unfinished(pending, h)} :: h == held ==> Unfinished(pending, h)
  }

  predicate Unfinished(pending: seq<Byte>, held: nat) {
    |pending| > held ==> Scan(pending[..|pending| - held]) == Open(0)
  }

  // ---- the state as values ----

  /** All that came in and all that was decoded; `held` is how much of the end may become a stop. */
  datatype Past = Past(stream: seq<Byte>, boundaries: seq<nat>, rendered: Text, held: nat)

  /** What the program keeps of it. */
  datatype Tail = Tail(pending: seq<Byte>, offset: nat, kept: seq<nat>, visible: Text, stripping: bool)

  /** Up to the offset everything is decoded and shown, and as long as nothing is malformed, in whole characters. */
  ghost predicate TextHolds(raw: bool, p: Past, t: Tail) {
    && t.offset <= |p.stream| && t.pending == p.stream[t.offset..]
    && (forall o: nat {:trigger DecodedTo(p.stream, o, p.rendered)} ::
          o == t.offset ==> DecodedTo(p.stream, o, p.rendered))
    && (forall v {:trigger ShowsText(raw, t.stripping, p.rendered, v)} ::
          v == t.visible ==> ShowsText(raw, t.stripping, p.rendered, v))
  }

  ghost predicate DecodedTo(s: seq<Byte>, offset: nat, rendered: Text) {
    && offset <= |s| && InPieces(s[..offset], rendered)
    && (!Scan(s).Broken? ==> Scan(s[..offset]).Valid? && rendered == Lossy(s[..offset]))
  }

  /** `text` is what comes of decoding the bytes piece by piece. */
  ghost predicate InPieces(s: seq<Byte>, text: Text) {
    exists pieces: seq<seq<Byte>> :: PiecesAre(pieces, s, text)
  }

  predicate PiecesAre(pieces: seq<seq<Byte>>, s: seq<Byte>, text: Text) {
    Concat(pieces) == s && Decoded(pieces) == text
  }

  function Decoded(pieces: seq<seq<Byte>>): Text {
    if pieces == [] then [] else Decoded(pieces[..|pieces| - 1]) + Lossy(pieces[|pieces| - 1])
  }

  lemma NoPieces()
    ensures InPieces([], [])
  {
    assert PiecesAre([], [], []);
  }

  lemma OneMorePiece(s: seq<Byte>, text: Text, piece: seq<Byte>)
    requires InPieces(s, text)
    ensures InPieces(s + piece, text + Lossy(piece))
  {
    var pieces: seq<seq<Byte>> :| PiecesAre(pieces, s, text);
    var more := pieces + [piece];
    assert more[..|more| - 1] == pieces;
    assert PiecesAre(more, s + piece, text + Lossy(piece));
  }

  ghost predicate ShowsText(raw: bool, stripping: bool, rendered: Text, visible: Text) {
    visible == Shown(raw, rendered) && (stripping <==> !raw && visible == [])
  }

  ghost predicate BoundariesHold(p: Past, t: Tail) {
    && KeepsBoundaries(t.kept, p.boundaries, t.offset)
    && EndsWith(t.kept, |p.stream|) && EndsWith(p.boundaries, |p.stream|)
  }

  ghost predicate RunningHolds(stops: Stops, raw: bool, p: Past, t: Tail) {
    && TextHolds(raw, p, t) && BoundariesHold(p, t)
    && !HasStop(stops, p.stream) && LongestMayBecome(stops, p.stream, p.held)
    && HeldBack(t.pending, p.held)
  }

  /** In the middle of a push: all stops, and all that may become one, lie in what is pending. */
  ghost predicate SearchingHolds(stops: Stops, raw: bool, p: Past, t: Tail) {
    && TextHolds(raw, p, t) && BoundariesHold(p, t)
    && (forall j: nat, l: nat {:trigger Hit(stops, p.stream, j, l)} :: Hit(stops, p.stream, j, l) ==> j >= t.offset)
    && (forall m: nat {:trigger MayBecome(stops, p.stream, m)} :: MayBecome(stops, p.stream, m) ==> m <= |t.pending|)
  }

  /** How the first stop of the whole stream lies among all token boundaries. */
  function AlignmentAt(stops: Stops, s: seq<Byte>, boundaries: seq<nat>): Option<Alignment> {
    match Search(stops, s, 0)
    case None => None
    case Some(cut) => Some(Classify(boundaries, cut, cut + |stops[StopAt(stops, s, cut, 0).value]|))
  }

  /** The text ends at the first stop of the whole stream, or at its end. */
  ghost predicate EndedHolds(stops: Stops, raw: bool, p: Past, visible: Text, alignment: Option<Alignment>) {
    && alignment == AlignmentAt(stops, p.stream, p.boundaries)
    && forall v {:trigger ShownTo(raw, p.stream, WholeCut(stops, p.stream), v)} ::
         v == visible ==> ShownTo(raw, p.stream, WholeCut(stops, p.stream), v)
  }

  /** The bytes before `cut` are shown as decoding them piece by piece gives. As long as nothing is malformed, that is all
      their text, and a character ends or begins there. */
  ghost predicate ShownTo(raw: bool, s: seq<Byte>, cut: nat, visible: Text) {
    && cut <= |s| && (exists text :: InPieces(s[..cut], text) && visible == Shown(raw, text))
    && (!Scan(s).Broken? ==>
          visible == Shown(raw, Lossy(s[..cut])) && (cut < |s| ==> Scan(s[..cut]).Valid?))
  }

  ghost predicate GoodStop(stop: seq<Byte>) {
    1 <= |stop| <= MAX_STOP_BYTES && Scan(stop).Valid?
  }

  /** The stops are well-formed text of bounded length. */
  ghost predicate GoodPatterns(stops: Stops) {
    && GoodStops(stops)
    && forall k {:trigger GoodStop(stops[k])} :: 0 <= k < |stops| ==> GoodStop(stops[k])
  }

  // ---- emission ----

  function Delta(t: Tail, count: nat): Text
    requires count <= |t.pending|
  {
    var text := Lossy(t.pending[..count]);
    if t.stripping then TrimStart(text) else text
  }

  /** The first `count` pending bytes are shown and gone. */
  function Emitted(t: Tail, count: nat): Tail
    requires count <= |t.pending|
  {
    t.(pending := t.pending[count..], offset := t.offset + count, visible := t.visible + Delta(t, count),
       stripping := t.stripping && Delta(t, count) == [])
  }

  function Rendering(p: Past, t: Tail, count: nat): Past
    requires count <= |t.pending|
  {
    p.(rendered := p.rendered + Lossy(t.pending[..count]))
  }

  lemma EmittedShows(raw: bool, p: Past, t: Tail, count: nat)
    requires TextHolds(raw, p, t) && count <= |t.pending|
    ensures ShowsText(raw, Emitted(t, count).stripping, Rendering(p, t, count).rendered, Emitted(t, count).visible)
  {
    assert ShowsText(raw, t.stripping, p.rendered, t.visible);
    TrimAppend(p.rendered, Lossy(t.pending[..count]));
  }

  lemma EmittedDecodes(s: seq<Byte>, from: nat, count: nat, rendered: Text)
    requires DecodedTo(s, from, rendered) && from + count <= |s|
    ensures !Scan(s).Broken? ==> rendered + Lossy(s[from..][..count]) == Lossy(s[..from + count])
    ensures s[from..][count..] == s[from + count..]
    ensures InPieces(s[..from + count], rendered + Lossy(s[from..][..count]))
  {
    OneMorePiece(s[..from], rendered, s[from..][..count]);
    assert s[from..][..count] == s[from..from + count];
    assert s[..from] + s[from..from + count] == s[..from + count];
    if !Scan(s).Broken? {
      LossyAppend(s[..from], s[from..from + count]);
    }
  }

  // ---- the three ways to go ----

  /** Everything shown, no stop: the end. */
  lemma FlushEnds(stops: Stops, raw: bool, p: Past, t: Tail)
    requires TextHolds(raw, p, t) && !HasStop(stops, p.stream)
    ensures EndedHolds(stops, raw, Rendering(p, t, |t.pending|), Emitted(t, |t.pending|).visible, None)
  {
    SearchIsExact(stops, p.stream);
    EmittedShownTo(raw, p, t, |t.pending|);
  }

  /** What is shown after an emission, if the cut is there. */
  lemma EmittedShownTo(raw: bool, p: Past, t: Tail, count: nat)
    requires TextHolds(raw, p, t) && count <= |t.pending|
    requires !Scan(p.stream).Broken? && t.offset + count < |p.stream| ==> Scan(p.stream[..t.offset + count]).Valid?
    ensures ShownTo(raw, p.stream, t.offset + count, Emitted(t, count).visible)
  {
    assert DecodedTo(p.stream, t.offset, p.rendered);
    EmittedShows(raw, p, t, count);
    EmittedShownAt(raw, p.stream, t.offset, count, p.rendered, Emitted(t, count).stripping, Emitted(t, count).visible);
  }

  lemma EmittedShownAt(raw: bool, s: seq<Byte>, from: nat, count: nat, rendered: Text, stripping: bool, visible: Text)
    requires DecodedTo(s, from, rendered) && from + count <= |s|
    requires ShowsText(raw, stripping, rendered + Lossy(s[from..][..count]), visible)
    requires !Scan(s).Broken? && from + count < |s| ==> Scan(s[..from + count]).Valid?
    ensures ShownTo(raw, s, from + count, visible)
  {
    EmittedDecodes(s, from, count, rendered);
  }

  lemma CutFound(stops: Stops, s: seq<Byte>, from: nat, start: nat, k: nat)
    requires from <= |s| && FirstHit(stops, s[from..], start, k)
    requires forall j: nat, l: nat {:trigger Hit(stops, s, j, l)} :: Hit(stops, s, j, l) ==> j >= from
    ensures HasStop(stops, s) && Search(stops, s, 0) == Some(from + start)
    ensures Hit(stops, s, from + start, k) && StopAt(stops, s, from + start, 0) == Some(k)
  {
    TailFindsFirst(stops, s, from, start, k);
    FirstHitCuts(stops, s, from + start, k);
    SearchIsExact(stops, s);
    FirstHitUnique(stops, s, from + start, k, WholeCut(stops, s), StopAt(stops, s, WholeCut(stops, s), 0).value);
  }

  /** A stop of well-formed text begins where a character begins. */
  lemma CutIsWhole(s: seq<Byte>, cut: nat, stop: seq<Byte>)
    requires !Scan(s).Broken? && GoodStop(stop) && OccursAt(s, stop, cut)
    ensures Scan(s[..cut]).Valid?
  {
    assert s[cut] == s[cut..cut + |stop|][0] == stop[0];
    StartsCharacter(s, cut);
  }

  lemma StopEnds(stops: Stops, raw: bool, p: Past, t: Tail, start: nat, k: nat)
    requires GoodPatterns(stops) && SearchingHolds(stops, raw, p, t) && FirstHit(stops, t.pending, start, k)
    ensures HasStop(stops, p.stream)
    ensures var q, u := Rendering(p, t, start), Emitted(t, start);
            EndedHolds(stops, raw, q, u.visible,
                       Some(Classify(t.kept, t.offset + start, t.offset + start + |stops[k]|)))
  {
    StopAligned(stops, p.stream, p.boundaries, t.kept, t.offset, start, k);
    StopIsWhole(stops, p.stream, t.offset + start, k);
    EmittedShownTo(raw, p, t, start);
  }

  lemma StopAligned(stops: Stops, s: seq<Byte>, all: seq<nat>, kept: seq<nat>, from: nat, start: nat, k: nat)
    requires from <= |s| && FirstHit(stops, s[from..], start, k) && KeepsBoundaries(kept, all, from)
    requires forall j: nat, l: nat {:trigger Hit(stops, s, j, l)} :: Hit(stops, s, j, l) ==> j >= from
    ensures HasStop(stops, s) && Hit(stops, s, from + start, k) && WholeCut(stops, s) == from + start
    ensures AlignmentAt(stops, s, all) == Some(Classify(kept, from + start, from + start + |stops[k]|))
  {
    CutFound(stops, s, from, start, k);
    ClassifiedAlike(kept, all, from, from + start, from + start + |stops[k]|);
  }

  lemma StopIsWhole(stops: Stops, s: seq<Byte>, cut: nat, k: nat)
    requires GoodPatterns(stops) && Hit(stops, s, cut, k)
    ensures !Scan(s).Broken? ==> Scan(s[..cut]).Valid?
  {
    assert GoodStop(stops[k]);
    if !Scan(s).Broken? {
      CutIsWhole(s, cut, stops[k]);
    }
  }

  /** What a push without a stop leaves when `count` bytes are consumed. */
  function GoneOn(t: Tail, count: nat): Tail
    requires count <= |t.pending|
  {
    Emitted(t, count).(kept := AtLeast(t.kept, t.offset + count))
  }

  lemma GoesOn(stops: Stops, raw: bool, p: Past, t: Tail, held: nat, count: nat)
    requires SearchingHolds(stops, raw, p, t) && !HasStop(stops, t.pending)
    requires held <= |t.pending| && LongestMayBecome(stops, t.pending, held)
    requires count == CompletePrefix(t.pending[..|t.pending| - held])
    ensures count <= |t.pending|
    ensures RunningHolds(stops, raw, Rendering(p, t, count).(held := held), GoneOn(t, count))
  {
    WholeStreamToo(stops, raw, p, t, held);
    WholeConsumed(p.stream, t.offset, |t.pending| - held);
    LeftIsHeldBack(t.pending, held);
    RunsOn(stops, raw, p, t, held, count);
  }

  lemma WholeStreamToo(stops: Stops, raw: bool, p: Past, t: Tail, held: nat)
    requires SearchingHolds(stops, raw, p, t) && !HasStop(stops, t.pending) && LongestMayBecome(stops, t.pending, held)
    ensures TextHolds(raw, p, t) && BoundariesHold(p, t)
    ensures !HasStop(stops, p.stream) && LongestMayBecome(stops, p.stream, held)
  {
    TailFindsNone(stops, p.stream, t.offset);
    TailHoldsLongest(stops, p.stream, t.offset, held);
  }

  lemma RunsOn(stops: Stops, raw: bool, p: Past, t: Tail, held: nat, count: nat)
    requires TextHolds(raw, p, t) && BoundariesHold(p, t) && count <= |t.pending|
    requires !HasStop(stops, p.stream) && LongestMayBecome(stops, p.stream, held)
    requires HeldBack(t.pending[count..], held)
    requires !Scan(p.stream).Broken? && Scan(p.stream[..t.offset]).Valid? ==> Scan(p.stream[..t.offset + count]).Valid?
    ensures RunningHolds(stops, raw, Rendering(p, t, count).(held := held), GoneOn(t, count))
  {
    TextMoves(raw, p, t, count);
    RetainKeeps(t.kept, p.boundaries, t.offset, t.offset + count, |p.stream|);
  }

  lemma TextMoves(raw: bool, p: Past, t: Tail, count: nat)
    requires TextHolds(raw, p, t) && count <= |t.pending|
    requires !Scan(p.stream).Broken? && Scan(p.stream[..t.offset]).Valid? ==> Scan(p.stream[..t.offset + count]).Valid?
    ensures TextHolds(raw, Rendering(p, t, count), Emitted(t, count))
  {
    assert DecodedTo(p.stream, t.offset, p.rendered);
    EmittedShows(raw, p, t, count);
    DecodesOn(p.stream, t.offset, count, p.rendered);
    TextIs(raw, Rendering(p, t, count), Emitted(t, count));
  }

  lemma DecodesOn(s: seq<Byte>, from: nat, count: nat, rendered: Text)
    requires DecodedTo(s, from, rendered) && from + count <= |s|
    requires !Scan(s).Broken? && Scan(s[..from]).Valid? ==> Scan(s[..from + count]).Valid?
    ensures DecodedTo(s, from + count, rendered + Lossy(s[from..][..count]))
    ensures s[from..][count..] == s[from + count..]
  {
    EmittedDecodes(s, from, count, rendered);
  }

  lemma TextIs(raw: bool, p: Past, t: Tail)
    requires t.offset <= |p.stream| && t.pending == p.stream[t.offset..]
    requires DecodedTo(p.stream, t.offset, p.rendered) && ShowsText(raw, t.stripping, p.rendered, t.visible)
    ensures TextHolds(raw, p, t)
  {
  }

  /** Consuming up to the last complete character ends at a character. */
  lemma WholeConsumed(s: seq<Byte>, from: nat, safe: nat)
    requires from + safe <= |s|
    ensures !Scan(s).Broken? && Scan(s[..from]).Valid? ==>
              Scan(s[..from + CompletePrefix(s[from..][..safe])]).Valid?
  {
    ConsumedSlice(s, from, safe, CompletePrefix(s[from..][..safe]));
    if !Scan(s).Broken? && Scan(s[..from]).Valid? {
      WholeJoins(s[..from], s[from..], safe);
    }
  }

  lemma WholeJoins(a: seq<Byte>, b: seq<Byte>, safe: nat)
    requires safe <= |b| && Scan(a).Valid? && !Scan(a + b).Broken?
    ensures Scan(a + b[..safe][..CompletePrefix(b[..safe])]).Valid?
  {
    TailNotBroken(a, b);
    PrefixComplete(b, safe);
    ValidJoins(a, b[..safe][..CompletePrefix(b[..safe])]);
  }

  lemma ConsumedSlice(s: seq<Byte>, from: nat, safe: nat, n: nat)
    requires from + safe <= |s| && n <= safe
    ensures s[..from] + s[from..] == s
    ensures s[..from] + s[from..][..safe][..n] == s[..from + n]
  {
  }

  lemma TailNotBroken(a: seq<Byte>, b: seq<Byte>)
    requires Scan(a).Valid? && !Scan(a + b).Broken?
    ensures !Scan(b).Broken?
  {
    ScanAppend(a, b);
  }

  lemma PrefixComplete(s: seq<Byte>, safe: nat)
    requires safe <= |s| && !Scan(s).Broken?
    ensures Scan(s[..safe][..CompletePrefix(s[..safe])]).Valid?
  {
    ScanTake(s, safe);
    CompleteIsValid(s[..safe]);
  }

  lemma ValidJoins(a: seq<Byte>, b: seq<Byte>)
    requires Scan(a).Valid? && Scan(b).Valid?
    ensures Scan(a + b).Valid?
  {
    ScanAppend(a, b);
  }

  lemma LeftIsHeldBack(pending: seq<Byte>, held: nat)
    requires held <= |pending|
    ensures HeldBack(pending[CompletePrefix(pending[..|pending| - held])..], held)
  {
    var chunk := pending[..|pending| - held];
    var n := CompletePrefix(chunk);
    assert pending[n..][..|pending[n..]| - held] == chunk[n..];
    if Scan(chunk).Open? {
      OpenTail(chunk);
    }
  }

  /** Never more is held back than an unfinished character and an unfinished stop. */
  lemma HoldBackBounded(stops: Stops, raw: bool, p: Past, t: Tail)
    requires GoodStops(stops) && RunningHolds(stops, raw, p, t)
    ensures |t.pending| <= MAX_STOP_BYTES + 2
  {
    if p.held > 0 {
      var k: nat :| k < |stops| && p.held < |stops[k]| && stops[k][..p.held] == p.stream[|p.stream| - p.held..];
    }
  }

  // ---- a piece arrives ----

  function Arrived(p: Past, piece: seq<Byte>): Past {
    p.(stream := p.stream + piece, boundaries := p.boundaries + [|p.stream| + |piece|])
  }

  function Extended(t: Tail, piece: seq<Byte>, end: nat): Tail {
    t.(pending := t.pending + piece, kept := t.kept + [end])
  }

  lemma PieceArrives(stops: Stops, raw: bool, p: Past, t: Tail, piece: seq<Byte>)
    requires GoodStops(stops) && RunningHolds(stops, raw, p, t)
    ensures SearchingHolds(stops, raw, Arrived(p, piece), Extended(t, piece, |p.stream| + |piece|))
  {
    PendingIsEnough(stops, p.stream, piece, p.held, t.offset);
    TextArrives(raw, p, t, piece);
    OneMoreBoundary(t.kept, p.boundaries, t.offset, |p.stream| + |piece|);
  }

  lemma TextArrives(raw: bool, p: Past, t: Tail, piece: seq<Byte>)
    requires TextHolds(raw, p, t)
    ensures TextHolds(raw, Arrived(p, piece), Extended(t, piece, |p.stream| + |piece|))
  {
    assert DecodedTo(p.stream, t.offset, p.rendered);
    assert ShowsText(raw, t.stripping, p.rendered, t.visible);
    StillDecoded(p.stream, piece, t.offset);
    assert p.stream[t.offset..] + piece == (p.stream + piece)[t.offset..];
  }

  /** Nothing that matters lies before what is pending. */
  lemma PendingIsEnough(stops: Stops, s: seq<Byte>, piece: seq<Byte>, held: nat, from: nat)
    requires GoodStops(stops) && !HasStop(stops, s) && LongestMayBecome(stops, s, held)
    requires from + held <= |s|
    ensures forall j: nat, l: nat {:trigger Hit(stops, s + piece, j, l)} :: Hit(stops, s + piece, j, l) ==> j >= from
    ensures forall m: nat {:trigger MayBecome(stops, s + piece, m)} ::
              MayBecome(stops, s + piece, m) ==> m <= |s + piece| - from
  {
    forall j: nat, l: nat | Hit(stops, s + piece, j, l)
      ensures j >= from
    {
      NewHitOverlaps(stops, s, piece, held, j, l);
    }
    forall m: nat | MayBecome(stops, s + piece, m)
      ensures m <= |s + piece| - from
    {
      HeldGrows(stops, s, piece, held, m);
    }
  }

  /** More input does not undo what is decoded. */
  lemma StillDecoded(s: seq<Byte>, piece: seq<Byte>, from: nat)
    requires from <= |s|
    ensures (s + piece)[..from] == s[..from]
    ensures !Scan(s + piece).Broken? ==> !Scan(s).Broken?
  {
    assert (s + piece)[..|s|] == s;
    if !Scan(s + piece).Broken? {
      ScanTake(s + piece, |s|);
    }
  }

  lemma NothingStops(stops: Stops)
    requires GoodStops(stops)
    ensures !HasStop(stops, []) && LongestMayBecome(stops, [], 0)
  {
    forall i: nat, k: nat
      ensures !Hit(stops, [], i, k)
    {
    }
  }

  class GenerationFrontier {
    const stops: Stops
    const raw: bool
    var pending: seq<Byte>
    var pendingOffset: nat
    var tokenBoundaries: seq<nat>
    var sampledTokens: nat
    var visible: Text
    var stripping: bool
    var finishReason: Option<FinishReason>
    var stopAlignment: Option<Alignment>
    ghost var past: Past

    ghost function Now(): Tail
      reads this
    {
      Tail(pending, pendingOffset, tokenBoundaries, visible, stripping)
    }

    ghost predicate Running()
      reads this
    {
      && finishReason.None? && stopAlignment.None?
      && forall t {:trigger RunningHolds(stops, raw, past, t)} :: t == Now() ==> RunningHolds(stops, raw, past, t)
    }

    ghost predicate Ended()
      reads this
    {
      && finishReason.Some?
      && forall v {:trigger EndedHolds(stops, raw, past, v, stopAlignment)} ::
           v == visible ==> EndedHolds(stops, raw, past, v, stopAlignment)
    }

    ghost predicate Valid()
      reads this
    {
      GoodPatterns(stops) && (if finishReason.None? then Running() else Ended())
    }

    constructor (stops: Stops, raw: bool)
      requires GoodPatterns(stops)
      ensures Valid() && this.stops == stops && this.raw == raw
      ensures finishReason.None? && past.stream == [] && past.boundaries == [0] && visible == [] && sampledTokens == 0
    {
      this.stops := stops;
      this.raw := raw;
      pending, pendingOffset, tokenBoundaries, sampledTokens := [], 0, [0], 0;
      visible, stripping, finishReason, stopAlignment := [], !raw, None, None;
      past := Past([], [0], [], 0);
      new;
      NothingStops(stops);
      NoPieces();
      assert past.stream[..0] == [];
    }

    // ---- queries ----

    method Position(t: seq<Byte>) returns (r: Option<nat>)
      ensures r.Some? ==> OccursAt(pending, t, r.value) && forall j: nat :: j < r.value ==> !OccursAt(pending, t, j)
      ensures r.None? ==> forall j: nat :: !OccursAt(pending, t, j)
    {
      var i := 0;
      while i + |t| <= |pending|
        invariant forall j: nat :: j < i ==> !OccursAt(pending, t, j)
      {
        if pending[i..i + |t|] == t {
          return Some(i);
        }
        i := i + 1;
      }
      return None;
    }

    /** The leftmost stop in what is pending, with its place in the list. */
    method StopMatch() returns (r: Option<(nat, nat)>)
      ensures r.Some? ==> FirstHit(stops, pending, r.value.0, r.value.1)
      ensures r.None? ==> !HasStop(stops, pending)
    {
      r := None;
      for k := 0 to |stops|
        invariant r.Some? ==>
                    && r.value.1 < k && Hit(stops, pending, r.value.0, r.value.1)
                    && forall j: nat, l: nat {:trigger Hit(stops, pending, j, l)} ::
                         l < k && Hit(stops, pending, j, l) ==>
                           r.value.0 < j || (r.value.0 == j && r.value.1 <= l)
        invariant r.None? ==> forall j: nat, l: nat {:trigger Hit(stops, pending, j, l)} :: l < k ==> !Hit(stops, pending, j, l)
      {
        var start := Position(stops[k]);
        assert forall j: nat :: Hit(stops, pending, j, k) ==> start.Some? && start.value <= j;
        if start.Some? && (r.None? || start.value < r.value.0) {
          assert Hit(stops, pending, start.value, k);
          r := Some((start.value, k));
        }
      }
    }

    method LongestFor(t: seq<Byte>) returns (n: nat)
      requires |t| > 0
      ensures n < |t| && n <= |pending| && t[..n] == pending[|pending| - n..]
      ensures forall m: nat :: n < m < |t| && m <= |pending| ==> t[..m] != pending[|pending| - m..]
    {
      n := if |t| - 1 <= |pending| then |t| - 1 else |pending|;
      while n > 0 && t[..n] != pending[|pending| - n..]
        invariant n < |t| && n <= |pending|
        invariant forall m: nat :: n < m < |t| && m <= |pending| ==> t[..m] != pending[|pending| - m..]
        decreases n
      {
        n := n - 1;
      }
    }

    /** How much of the end of what is pending may still become a stop. */
    method LongestPossibleStopSuffix() returns (n: nat)
      requires GoodStops(stops)
      ensures n <= |pending| && LongestMayBecome(stops, pending, n)
    {
      n := 0;
      for k := 0 to |stops|
        invariant n <= |pending| && (n == 0 || MayBecome(stops, pending, n))
        invariant forall l: nat, m: nat :: l < k && n < m < |stops[l]| && m <= |pending| ==>
                    stops[l][..m] != pending[|pending| - m..]
      {
        var longest := LongestFor(stops[k]);
        if longest > n {
          n := longest;
        }
      }
    }

    // ---- emission ----

    /** Renders and shows the first `consumed` pending bytes. Nothing is consumed if the text is not accepted. */
    method EmitPrefix(consumed: nat, accepts: bool) returns (delta: Text, ok: bool)
      requires consumed <= |pending|
      modifies this`pending, this`pendingOffset, this`visible, this`stripping
      ensures delta == Delta(old(Now()), consumed)
      ensures ok <==> accepts || delta == []
      ensures ok ==> Now() == Emitted(old(Now()), consumed)
      ensures !ok ==> visible == old(visible) && pending == old(pending)
    {
      if consumed == 0 {
        NothingEmitted(Now());
        return [], true;
      }
      var text := Lossy(pending[..consumed]);
      delta := if stripping then TrimStart(text) else text;
      stripping := stripping && delta == [];
      if delta != [] {
        if !accepts {
          return delta, false;
        }
        visible := visible + delta;
      } else {
        assert visible + delta == visible;
      }
      pending := pending[consumed..];
      pendingOffset := pendingOffset + consumed;
      return delta, true;
    }

    // ---- the end, and going on ----

    /** Shows everything that is left and ends. */
    method Flush(reason: FinishReason, accepts: bool) returns (delta: Text, ok: bool)
      requires GoodPatterns(stops) && finishReason.None? && stopAlignment.None?
      requires TextHolds(raw, past, Now()) && !HasStop(stops, past.stream)
      modifies this`pending, this`pendingOffset, this`visible, this`stripping, this`finishReason, this`past
      ensures past.stream == old(past.stream) && past.boundaries == old(past.boundaries)
      ensures ok <==> accepts || delta == []
      ensures visible == if ok then old(visible) + delta else old(visible)
      ensures ok ==> Valid() && finishReason == Some(reason)
    {
      ghost var t := Now();
      FlushEnds(stops, raw, past, t);
      delta, ok := EmitPrefix(|pending|, accepts);
      if ok {
        past := Rendering(past, t, |t.pending|);
        finishReason := Some(reason);
        assert EndedHolds(stops, raw, past, visible, stopAlignment);
      }
    }

    /** Shows what comes before the stop and ends there. */
    method EndAtStop(start: nat, k: nat, accepts: bool) returns (delta: Text, ok: bool)
      requires GoodPatterns(stops) && finishReason.None? && stopAlignment.None?
      requires SearchingHolds(stops, raw, past, Now()) && FirstHit(stops, pending, start, k)
      modifies this`pending, this`pendingOffset, this`visible, this`stripping, this`finishReason, this`stopAlignment, this`past
      ensures past.stream == old(past.stream) && past.boundaries == old(past.boundaries)
      ensures HasStop(stops, past.stream)
      ensures ok <==> accepts || delta == []
      ensures visible == if ok then old(visible) + delta else old(visible)
      ensures ok ==> Valid() && finishReason == Some(Stopped)
    {
      ghost var t := Now();
      StopEnds(stops, raw, past, t, start, k);
      var absoluteStart := pendingOffset + start;
      var absoluteEnd := absoluteStart + |stops[k]|;
      delta, ok := EmitPrefix(start, accepts);
      if ok {
        past := Rendering(past, t, start);
        stopAlignment := Some(Classify(tokenBoundaries, absoluteStart, absoluteEnd));
        finishReason := Some(Stopped);
        assert EndedHolds(stops, raw, past, visible, stopAlignment);
        pending := [];
        pendingOffset := absoluteEnd;
      }
    }

    /** How much can no longer be part of a stop, up to the last complete character. */
    method Complete() returns (count: nat, ghost after: Past)
      requires GoodPatterns(stops) && SearchingHolds(stops, raw, past, Now()) && !HasStop(stops, pending)
      ensures count <= |pending| && after.stream == past.stream && after.boundaries == past.boundaries
      ensures RunningHolds(stops, raw, after, GoneOn(Now(), count))
    {
      var retained := LongestPossibleStopSuffix();
      count := CompletePrefix(pending[..|pending| - retained]);
      GoesOn(stops, raw, past, Now(), retained, count);
      after := Rendering(past, Now(), count).(held := retained);
    }

    /** Shows all that can no longer be part of a stop, up to the last complete character. */
    method GoOn(accepts: bool) returns (delta: Text, ok: bool)
      requires GoodPatterns(stops) && finishReason.None? && stopAlignment.None?
      requires SearchingHolds(stops, raw, past, Now()) && !HasStop(stops, pending)
      modifies this`pending, this`pendingOffset, this`visible, this`stripping, this`tokenBoundaries, this`past
      ensures past.stream == old(past.stream) && past.boundaries == old(past.boundaries)
      ensures !HasStop(stops, past.stream)
      ensures ok <==> accepts || delta == []
      ensures visible == if ok then old(visible) + delta else old(visible)
      ensures ok ==> Valid()
    {
      ghost var t := Now();
      var count, after := Complete();
      delta, ok := EmitPrefix(count, accepts);
      if ok {
        past := after;
        tokenBoundaries := AtLeast(tokenBoundaries, pendingOffset);
        assert Now() == GoneOn(t, count);
        assert RunningHolds(stops, raw, past, Now());
      }
    }

    // ---- push and finish ----

    /** The next token. A terminal token's bytes are not part of the stream; what was held back then is shown. The
        frontier stops on exactly the push with which the whole stream first holds a stop, or at a terminal token. */
    method Push(piece: seq<Byte>, terminal: bool, accepts: bool) returns (control: Control, delta: Text)
      requires Valid()
      modifies this
      ensures old(finishReason).Some? ==>
                control == Stop && delta == [] && Valid() && visible == old(visible) && past == old(past)
                && finishReason == old(finishReason) && sampledTokens == old(sampledTokens)
      ensures old(finishReason).None? ==>
                && past.stream == old(past.stream) + (if terminal then [] else piece)
                && past.boundaries == old(past.boundaries) + [|old(past.stream)| + |piece|]
                && sampledTokens == old(sampledTokens) + 1
      ensures old(finishReason).None? ==>
                && (control == Refused <==> !accepts && delta != [])
                && visible == (if control == Refused then old(visible) else old(visible) + delta)
                && (control != Refused ==> Valid() && finishReason == if control == Stop then Some(Stopped) else None)
                && (control == Stop ==> terminal || HasStop(stops, past.stream))
                && (control == Continue ==> !terminal && !HasStop(stops, past.stream))
    {
      if finishReason.Some? {
        return Stop, [];
      }
      assert RunningHolds(stops, raw, past, Now());
      sampledTokens := sampledTokens + 1;
      var end := tokenBoundaries[|tokenBoundaries| - 1] + |piece|;
      var ok;
      if terminal {
        tokenBoundaries := tokenBoundaries + [end];
        assert past.stream + [] == past.stream;
        past := past.(boundaries := past.boundaries + [end]);
        delta, ok := Flush(Stopped, accepts);
        return if ok then Stop else Refused, delta;
      }
      PieceArrives(stops, raw, past, Now(), piece);
      delta, control := Extend(piece, end, accepts);
    }

    /** Takes the bytes of an ordinary token and searches. */
    method Extend(piece: seq<Byte>, end: nat, accepts: bool) returns (delta: Text, control: Control)
      requires GoodPatterns(stops) && finishReason.None? && stopAlignment.None?
      requires end == |past.stream| + |piece|
      requires SearchingHolds(stops, raw, Arrived(past, piece), Extended(Now(), piece, end))
      modifies this`pending, this`pendingOffset, this`tokenBoundaries, this`visible, this`stripping, this`finishReason,
               this`stopAlignment, this`past
      ensures past.stream == old(past.stream) + piece && past.boundaries == old(past.boundaries) + [end]
      ensures control == Refused <==> !accepts && delta != []
      ensures visible == if control == Refused then old(visible) else old(visible) + delta
      ensures control != Refused ==> Valid() && finishReason == if control == Stop then Some(Stopped) else None
      ensures control == Stop ==> HasStop(stops, past.stream)
      ensures control == Continue ==> !HasStop(stops, past.stream)
    {
      tokenBoundaries := tokenBoundaries + [end];
      pending := pending + piece;
      past := Arrived(past, piece);
      var found := StopMatch();
      var ok;
      if found.Some? {
        delta, ok := EndAtStop(found.value.0, found.value.1, accepts);
        control := if ok then Stop else Refused;
      } else {
        delta, ok := GoOn(accepts);
        control := if ok then Continue else Refused;
      }
    }

    /** Ends at the length limit what has not ended. */
    method Finish(accepts: bool) returns (result: Option<FrontierResult>, delta: Text)
      requires Valid()
      modifies this`pending, this`pendingOffset, this`visible, this`stripping, this`finishReason, this`past
      ensures past.stream == old(past.stream) && past.boundaries == old(past.boundaries)
      ensures result.None? <==> old(finishReason).None? && !accepts && delta != []
      ensures result.Some? ==>
                && Valid() && visible == old(visible) + delta
                && finishReason == (if old(finishReason).None? then Some(Length) else old(finishReason))
                && result == Some(FrontierResult(visible, sampledTokens, finishReason.value, stopAlignment))
    {
      var ok := true;
      delta := [];
      assert visible + [] == visible;
      if finishReason.None? {
        assert RunningHolds(stops, raw, past, Now());
        delta, ok := Flush(Length, accepts);
      }
      return if ok then Some(FrontierResult(visible, sampledTokens, finishReason.value, stopAlignment)) else None, delta;
    }
  }

  datatype FrontierResult =
    FrontierResult(text: Text, generatedTokens: nat, reason: FinishReason, alignment: Option<Alignment>)

  lemma NothingEmitted(t: Tail)
    ensures Delta(t, 0) == [] && Emitted(t, 0) == t
  {
    assert t.pending[..0] == [] && t.pending[0..] == t.pending && t.visible + [] == t.visible;
  }

  // ---- whole runs ----

  datatype Created = Created(frontier: GenerationFrontier) | TooManyStops | BadStopLength

  /** Strings are well-formed text; number and lengths are checked, the number first. */
  method WithLimit(stops: Stops, raw: bool, limit: nat) returns (r: Created)
    requires forall k :: 0 <= k < |stops| ==> Scan(stops[k]).Valid?
    ensures r.TooManyStops? <==> |stops| > limit
    ensures r.BadStopLength? <==> |stops| <= limit && !GoodStops(stops)
    ensures r.Created? ==>
              && fresh(r.frontier) && r.frontier.Valid() && r.frontier.stops == stops && r.frontier.raw == raw
              && r.frontier.past.stream == [] && r.frontier.finishReason.None? && r.frontier.visible == []
  {
    if |stops| > limit {
      return TooManyStops;
    }
    if exists k :: 0 <= k < |stops| && (stops[k] == [] || |stops[k]| > MAX_STOP_BYTES) {
      return BadStopLength;
    }
    var frontier := new GenerationFrontier(stops, raw);
    return Created(frontier);
  }

  /** What buffering everything and searching gives. */
  function TextOf(stops: Stops, raw: bool, s: seq<Byte>): Text {
    Shown(raw, Lossy(s[..WholeCut(stops, s)]))
  }

  lemma EndedText(stops: Stops, raw: bool, p: Past, visible: Text, alignment: Option<Alignment>)
    requires EndedHolds(stops, raw, p, visible, alignment)
    ensures !Scan(p.stream).Broken? ==> visible == TextOf(stops, raw, p.stream)
  {
    assert ShownTo(raw, p.stream, WholeCut(stops, p.stream), visible);
  }

  lemma StoppedEarly(stops: Stops, raw: bool, s: seq<Byte>, rest: seq<Byte>)
    requires Free(stops) && HasStop(stops, s) && !Scan(s + rest).Broken?
    ensures !Scan(s).Broken? && TextOf(stops, raw, s + rest) == TextOf(stops, raw, s)
  {
    CutIndependent(stops, s, rest);
    StillDecoded(s, rest, WholeCut(stops, s));
  }

  /** Searching for the stops in `s`, or in `s` with more, gives the same raw text. */
  ghost predicate TextSettled(stops: Stops, s: seq<Byte>, more: seq<Byte>) {
    HasStop(stops, s) && !Scan(s + more).Broken? ==> TextOf(stops, true, s + more) == TextOf(stops, true, s)
  }

  /** Exactly for free stops the text that is shown does not depend on when the stream is searched. */
  lemma TextSettledExactly(stops: Stops)
    requires GoodPatterns(stops)
    ensures Free(stops) <==> forall s, more :: TextSettled(stops, s, more)
  {
    if Free(stops) {
      forall s, more
        ensures TextSettled(stops, s, more)
      {
        if HasStop(stops, s) && !Scan(s + more).Broken? {
          StoppedEarly(stops, true, s, more);
        }
      }
    } else {
      var l: nat, n: nat :| l < |stops| && n <= |stops[l]|
                            && HasStop(stops, stops[l][..n]) && WholeCut(stops, stops[l][..n]) != 0;
      PartShowsMore(stops, l, n);
      assert !TextSettled(stops, stops[l][..n], stops[l][n..]);
    }
  }

  /** A part of a stop with a later stop in it shows something; the whole stop shows nothing. */
  lemma PartShowsMore(stops: Stops, l: nat, n: nat)
    requires GoodPatterns(stops) && l < |stops| && n <= |stops[l]|
    requires HasStop(stops, stops[l][..n]) && WholeCut(stops, stops[l][..n]) != 0
    ensures stops[l][..n] + stops[l][n..] == stops[l] && !Scan(stops[l]).Broken?
    ensures TextOf(stops, true, stops[l][..n]) != TextOf(stops, true, stops[l])
  {
    StopCutsAtOnce(stops, l, n);
    assert GoodStop(stops[l]) && stops[l][..0] == [];
    assert stops[l][..n][..WholeCut(stops, stops[l][..n])] != [];
  }

  /** If the stops are free and nothing is malformed, `text` is what searching all of `s` gives. */
  ghost predicate SameText(stops: Stops, raw: bool, s: seq<Byte>, text: Text) {
    Free(stops) && !Scan(s).Broken? ==> text == TextOf(stops, raw, s)
  }

  lemma RunText(stops: Stops, raw: bool, p: Past, rest: seq<Byte>, visible: Text, alignment: Option<Alignment>)
    requires EndedHolds(stops, raw, p, visible, alignment) && (rest == [] || HasStop(stops, p.stream))
    ensures SameText(stops, raw, p.stream + rest, visible)
  {
    EndedText(stops, raw, p, visible, alignment);
    if rest == [] {
      assert p.stream + rest == p.stream;
    } else if Free(stops) && !Scan(p.stream + rest).Broken? {
      StoppedEarly(stops, raw, p.stream, rest);
    }
  }

  // ---- whole generations ----

  datatype Sample = Sample(piece: seq<Byte>, terminal: bool)

  /** The bytes of the tokens that are not terminal. */
  function Stream(tokens: seq<Sample>): seq<Byte> {
    if tokens == [] then []
    else
      var last := tokens[|tokens| - 1];
      Stream(tokens[..|tokens| - 1]) + if last.terminal then [] else last.piece
  }

  /** Where tokens end; a terminal token ends where its piece would. */
  function Boundaries(tokens: seq<Sample>): seq<nat> {
    if tokens == [] then [0]
    else
      var front := tokens[..|tokens| - 1];
      Boundaries(front) + [|Stream(front)| + |tokens[|tokens| - 1].piece|]
  }

  /** The last token is terminal, or the stream so far holds a stop. */
  predicate Ends(stops: Stops, tokens: seq<Sample>) {
    HasStop(stops, Stream(tokens)) || (tokens != [] && tokens[|tokens| - 1].terminal)
  }

  /** The first `used` tokens are all up to the one that ends the generation, or all there are. */
  ghost predicate UsedUp(stops: Stops, tokens: seq<Sample>, used: nat) {
    && used <= |tokens| && (used < |tokens| ==> Ends(stops, tokens[..used]))
    && forall i: nat {:trigger tokens[..i]} :: i < used ==> !Ends(stops, tokens[..i])
  }

  /** All bytes before the first terminal token. */
  function Buffered(tokens: seq<Sample>): seq<Byte> {
    if tokens == [] || tokens[0].terminal then [] else tokens[0].piece + Buffered(tokens[1..])
  }

  predicate Ordinary(tokens: seq<Sample>) {
    forall i :: 0 <= i < |tokens| ==> !tokens[i].terminal
  }

  lemma {:induction false} BufferedAfter(tokens: seq<Sample>, k: nat)
    requires k <= |tokens| && Ordinary(tokens[..k])
    ensures Buffered(tokens) == Stream(tokens[..k]) + Buffered(tokens[k..])
  {
    if k == 0 {
      assert tokens[..0] == [] && tokens[0..] == tokens;
    } else {
      assert !tokens[..k][k - 1].terminal;
      assert tokens[..k][..k - 1] == tokens[..k - 1];
      assert forall i :: 0 <= i < k - 1 ==> tokens[..k - 1][i] == tokens[..k][i];
      BufferedAfter(tokens, k - 1);
      assert tokens[k - 1..][1..] == tokens[k..];
    }
  }

  lemma OrdinaryBefore(stops: Stops, tokens: seq<Sample>, used: nat)
    requires UsedUp(stops, tokens, used)
    ensures used > 0 ==> Ordinary(tokens[..used - 1])
  {
    forall i | 0 <= i < used - 1
      ensures !tokens[i].terminal
    {
      assert tokens[..i + 1][i] == tokens[i];
    }
  }

  /** What is used up is the whole buffer, or a part of it that holds a stop. */
  lemma UsedOfBuffer(stops: Stops, tokens: seq<Sample>, used: nat) returns (rest: seq<Byte>)
    requires UsedUp(stops, tokens, used)
    ensures Buffered(tokens) == Stream(tokens[..used]) + rest
    ensures rest == [] || HasStop(stops, Stream(tokens[..used]))
  {
    OrdinaryBefore(stops, tokens, used);
    if used > 0 && tokens[used - 1].terminal {
      BufferedAfter(tokens, used - 1);
      assert tokens[..used][..used - 1] == tokens[..used - 1];
      assert tokens[used - 1..][0].terminal;
      rest := [];
    } else {
      assert used > 0 ==> forall i :: 0 <= i < used - 1 ==> tokens[..used - 1][i] == tokens[i];
      BufferedAfter(tokens, used);
      rest := Buffered(tokens[used..]);
    }
  }

  lemma MoreUsed(stops: Stops, tokens: seq<Sample>, used: nat)
    requires used < |tokens| && !Ends(stops, tokens[..used])
    requires forall i: nat {:trigger tokens[..i]} :: i < used ==> !Ends(stops, tokens[..i])
    ensures tokens[..used + 1][..used] == tokens[..used] && tokens[..used + 1][used] == tokens[used]
    ensures forall i: nat {:trigger tokens[..i]} :: i < used + 1 ==> !Ends(stops, tokens[..i])
  {
  }

  // ---- how a stop lies among tokens ----

  /** The first `n` bytes are the pieces of the first tokens, of each all or nothing. */
  predicate WholeTokens(tokens: seq<Sample>, n: nat) {
    exists i: nat {:trigger tokens[..i]} :: i <= |tokens| && |Stream(tokens[..i])| == n
  }

  /** All bytes from `start` to `end` are of the piece of one token. */
  predicate OfOneToken(tokens: seq<Sample>, start: nat, end: nat) {
    exists i: nat {:trigger tokens[..i]} :: i < |tokens| && |Stream(tokens[..i])| <= start && end <= |Stream(tokens[..i + 1])|
  }

  /** Aligned if whole tokens end before the stop and with it; else within one token or across several. */
  predicate AlignmentFits(tokens: seq<Sample>, start: nat, end: nat, alignment: Alignment) {
    && (alignment == TokenAligned <==> WholeTokens(tokens, start) && WholeTokens(tokens, end))
    && (alignment == IntraToken <==>
          !(WholeTokens(tokens, start) && WholeTokens(tokens, end)) && OfOneToken(tokens, start, end))
    && (alignment == CrossToken <==>
          !(WholeTokens(tokens, start) && WholeTokens(tokens, end)) && !OfOneToken(tokens, start, end))
  }

  lemma {:induction false} BoundariesAre(tokens: seq<Sample>, b: nat)
    requires Ordinary(tokens)
    ensures b in Boundaries(tokens) <==> WholeTokens(tokens, b)
  {
    var n := |tokens|;
    assert tokens[..n] == tokens;
    if n == 0 {
      assert tokens[..0] == [];
    } else {
      var front := tokens[..n - 1];
      assert forall i :: 0 <= i < n - 1 ==> front[i] == tokens[i];
      BoundariesAre(front, b);
      assert forall i: nat :: i <= n - 1 ==> front[..i] == tokens[..i];
      assert WholeTokens(tokens, b) <==> WholeTokens(front, b) || |Stream(tokens)| == b;
    }
  }

  lemma {:induction false} StreamGrows(tokens: seq<Sample>, i: nat, j: nat)
    requires i <= j <= |tokens|
    ensures |Stream(tokens[..i])| <= |Stream(tokens[..j])|
  {
    if i < j {
      StreamGrows(tokens, i, j - 1);
      assert tokens[..j][..j - 1] == tokens[..j - 1];
    }
  }

  /** The token with the byte at `n`. */
  lemma {:induction false} TokenAt(tokens: seq<Sample>, k: nat, n: nat) returns (i: nat)
    requires k <= |tokens| && n < |Stream(tokens[..k])|
    ensures i < k && |Stream(tokens[..i])| <= n < |Stream(tokens[..i + 1])|
  {
    assert k > 0 && tokens[..k][..k - 1] == tokens[..k - 1];
    if n < |Stream(tokens[..k - 1])| {
      i := TokenAt(tokens, k - 1, n);
    } else {
      i := k - 1;
    }
  }

  /** There is a boundary strictly inside exactly if the bytes are not all of one token. */
  lemma CrossesExactly(tokens: seq<Sample>, start: nat, end: nat)
    requires Ordinary(tokens) && start < end <= |Stream(tokens)|
    ensures (exists b :: b in Boundaries(tokens) && start < b < end) <==> !OfOneToken(tokens, start, end)
  {
    assert tokens[..|tokens|] == tokens;
    var i := TokenAt(tokens, |tokens|, start);
    var b := |Stream(tokens[..i + 1])|;
    BoundariesAre(tokens, b);
    assert WholeTokens(tokens, b);
    if OfOneToken(tokens, start, end) {
      forall c | c in Boundaries(tokens)
        ensures !(start < c < end)
      {
        NotInside(tokens, start, end, c);
      }
    } else {
      assert start < b < end;
    }
  }

  lemma NotInside(tokens: seq<Sample>, start: nat, end: nat, b: nat)
    requires Ordinary(tokens) && OfOneToken(tokens, start, end) && b in Boundaries(tokens)
    ensures b <= start || b >= end
  {
    BoundariesAre(tokens, b);
    var j: nat :| j <= |tokens| && |Stream(tokens[..j])| == b;
    var i: nat :| i < |tokens| && |Stream(tokens[..i])| <= start && end <= |Stream(tokens[..i + 1])|;
    if j <= i {
      StreamGrows(tokens, j, i);
    } else {
      StreamGrows(tokens, i + 1, j);
    }
  }

  lemma ClassifiedByTokens(tokens: seq<Sample>, start: nat, end: nat)
    requires Ordinary(tokens) && start < end <= |Stream(tokens)|
    ensures AlignmentFits(tokens, start, end, Classify(Boundaries(tokens), start, end))
  {
    BoundariesAre(tokens, start);
    BoundariesAre(tokens, end);
    CrossesExactly(tokens, start, end);
  }

  /** Where the first stop of the stream ends. */
  function StopEnd(stops: Stops, s: seq<Byte>): nat
    requires HasStop(stops, s)
  {
    SearchIsExact(stops, s);
    WholeCut(stops, s) + |stops[StopAt(stops, s, WholeCut(stops, s), 0).value]|
  }

  /** The alignment that is reported is how the first stop lies among the tokens. */
  lemma AlignmentByTokens(stops: Stops, tokens: seq<Sample>, used: nat)
    requires GoodStops(stops) && UsedUp(stops, tokens, used)
    ensures var s := Stream(tokens[..used]);
            && (AlignmentAt(stops, s, Boundaries(tokens[..used])).Some? <==> HasStop(stops, s))
            && (HasStop(stops, s) ==>
                  AlignmentFits(tokens[..used], WholeCut(stops, s), StopEnd(stops, s),
                                AlignmentAt(stops, s, Boundaries(tokens[..used])).value))
  {
    var s := Stream(tokens[..used]);
    SearchIsExact(stops, s);
    if HasStop(stops, s) {
      UsedAreOrdinary(stops, tokens, used);
      ClassifiedByTokens(tokens[..used], WholeCut(stops, s), StopEnd(stops, s));
    }
  }

  lemma UsedAreOrdinary(stops: Stops, tokens: seq<Sample>, used: nat)
    requires GoodStops(stops) && UsedUp(stops, tokens, used) && HasStop(stops, Stream(tokens[..used]))
    ensures Ordinary(tokens[..used])
  {
    OrdinaryBefore(stops, tokens, used);
    if used > 0 {
      assert tokens[..used][..used - 1] == tokens[..used - 1];
      assert !Ends(stops, tokens[..used - 1]);
      assert Stream(tokens[..used - 1]) + [] == Stream(tokens[..used - 1]);
      forall i | 0 <= i < used
        ensures !tokens[..used][i].terminal
      {
        assert i < used - 1 ==> tokens[..used - 1][i] == tokens[i];
      }
    }
  }

  /** What a generation over `tokens` comes to if it uses the first `used` of them. */
  ghost predicate Outcome(stops: Stops, raw: bool, tokens: seq<Sample>, used: nat, result: FrontierResult) {
    && UsedUp(stops, tokens, used) && result.generatedTokens == used
    && result.reason == (if Ends(stops, tokens[..used]) then Stopped else Length)
    && result.alignment == AlignmentAt(stops, Stream(tokens[..used]), Boundaries(tokens[..used]))
    && (!Scan(Stream(tokens[..used])).Broken? ==> result.text == TextOf(stops, raw, Stream(tokens[..used])))
  }

  /** A whole generation. It uses the tokens up to the first that completes a stop or is terminal, and its text,
      reason and alignment are those of searching all of that at once with all token boundaries. Malformed or not, the
      text is that of all bytes before the stop, piece by piece. For free stops and what is not malformed it is what
      buffering everything and searching would give: it does not depend on how the bytes were split. */
  method Generate(stops: Stops, raw: bool, tokens: seq<Sample>)
    returns (result: FrontierResult, deltas: seq<Text>, ghost used: nat)
    requires GoodPatterns(stops)
    ensures Concat(deltas) == result.text
    ensures Outcome(stops, raw, tokens, used, result)
    ensures result.alignment.Some? <==> HasStop(stops, Stream(tokens[..used]))
    ensures result.alignment.Some? ==>
              var s := Stream(tokens[..used]);
              AlignmentFits(tokens[..used], WholeCut(stops, s), StopEnd(stops, s), result.alignment.value)
    ensures SameText(stops, raw, Buffered(tokens), result.text)
    ensures ShownTo(raw, Stream(tokens[..used]), WholeCut(stops, Stream(tokens[..used])), result.text)
  {
    var f;
    f, deltas, used := Consume(stops, raw, tokens);
    var finished, delta := f.Finish(true);
    deltas := deltas + [delta];
    result := finished.value;
    var rest := UsedOfBuffer(stops, tokens, used);
    EndedText(stops, raw, f.past, f.visible, f.stopAlignment);
    assert ShownTo(raw, f.past.stream, WholeCut(stops, f.past.stream), f.visible);
    RunText(stops, raw, f.past, rest, f.visible, f.stopAlignment);
    AlignmentByTokens(stops, tokens, used);
  }

  /** Pushes tokens until one ends the generation. */
  method Consume(stops: Stops, raw: bool, tokens: seq<Sample>)
    returns (f: GenerationFrontier, deltas: seq<Text>, used: nat)
    requires GoodPatterns(stops)
    ensures fresh(f) && f.Valid() && f.stops == stops && f.raw == raw && UsedUp(stops, tokens, used)
    ensures f.past.stream == Stream(tokens[..used]) && f.past.boundaries == Boundaries(tokens[..used])
    ensures f.sampledTokens == used && Concat(deltas) == f.visible
    ensures f.finishReason == if Ends(stops, tokens[..used]) then Some(Stopped) else None
  {
    f := new GenerationFrontier(stops, raw);
    deltas := [];
    used := 0;
    while used < |tokens| && f.finishReason.None?
      invariant used <= |tokens| && fresh(f) && f.Valid() && f.stops == stops && f.raw == raw
      invariant f.past.stream == Stream(tokens[..used]) && f.past.boundaries == Boundaries(tokens[..used])
      invariant f.sampledTokens == used && Concat(deltas) == f.visible
      invariant forall j: nat {:trigger tokens[..j]} :: j < used ==> !Ends(stops, tokens[..j])
      invariant f.finishReason == if Ends(stops, tokens[..used]) then Some(Stopped) else None
      decreases |tokens| - used
    {
      MoreUsed(stops, tokens, used);
      var control, delta := f.Push(tokens[used].piece, tokens[used].terminal, true);
      deltas := deltas + [delta];
      used := used + 1;
    }
  }
}
