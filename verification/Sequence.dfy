/** Options, shared by every module. */
module Options {
  datatype Option<+T> = None | Some(value: T)
}

/** Facts about concatenation and slicing that the solver is better given than left to find. */
module Seqs {
  lemma ConcatAssoc<T>(a: seq<T>, b: seq<T>, c: seq<T>)
    ensures (a + b) + c == a + (b + c)
  {
  }

  lemma TakeTake<T>(s: seq<T>, i: nat, j: nat)
    requires i <= j <= |s|
    ensures s[..j] == s[..i] + s[i..j]
    ensures s[..i] + s[i..] == s
  {
  }

  lemma DropDrop<T>(s: seq<T>, i: nat, j: nat)
    requires i <= j <= |s|
    ensures s[i..][j - i..] == s[j..]
    ensures s[i..][..j - i] == s[i..j]
  {
  }

  lemma SuffixUnique<T>(a: seq<T>, x: T, b: seq<T>, y: T, suffix: seq<T>)
    requires |a| == |b|
    requires a + [x] + suffix == b + [y] + suffix
    ensures x == y
  {
    assert (a + [x] + suffix)[|a|] == x;
    assert (b + [y] + suffix)[|a|] == y;
  }

  function Concat<T>(parts: seq<seq<T>>): seq<T> {
    if parts == [] then [] else Concat(parts[..|parts| - 1]) + parts[|parts| - 1]
  }

  lemma {:induction false} ConcatSplit<T>(parts: seq<seq<T>>, i: nat)
    requires i <= |parts|
    ensures Concat(parts) == Concat(parts[..i]) + Concat(parts[i..])
    decreases |parts|
  {
    if i == |parts| {
      assert parts[..i] == parts && parts[i..] == [];
    } else {
      var front := parts[..|parts| - 1];
      assert front[..i] == parts[..i] && parts[i..][..|parts[i..]| - 1] == front[i..];
      ConcatSplit(front, i);
    }
  }
}

/**
 The persistent chunked token sequence of the context store.

 A sequence is a visible prefix of an immutable chunk whose parent is again a sequence, so that branches
 share storage. `Tokens` is the plain sequence it stands for; everything below relates the chunked
 operations to `Tokens`.
 */
module TokenSequence {
  import opened Options
  import opened Seqs

  type Token = t: int | -0x8000_0000 <= t < 0x8000_0000

  const LOGICAL_CHUNK_TOKENS := 256

  /** SHA-256 seen as an uninterpreted fold: an initial state, one step per token, and a digest. */
  datatype Hasher = Hasher(start: int, step: (int, Token) -> int, finish: int -> int)

  datatype Sequence = Empty | Tail(chunk: Chunk, visible: nat)

  datatype Chunk = Chunk(parent: Sequence, startLen: nat, tokens: seq<Token>, startHash: int, endHash: int)

  function HashTokens(h: Hasher, state: int, tokens: seq<Token>): int {
    if tokens == [] then state
    else h.step(HashTokens(h, state, tokens[..|tokens| - 1]), tokens[|tokens| - 1])
  }

  function Len(s: Sequence): nat {
    if s.Empty? then 0 else s.chunk.startLen + s.visible
  }

  /** The plain token sequence that `s` stands for. */
  ghost function Tokens(s: Sequence): seq<Token> {
    match s
    case Empty => []
    case Tail(chunk, visible) =>
      Tokens(chunk.parent) + if visible <= |chunk.tokens| then chunk.tokens[..visible] else chunk.tokens
  }

  /** What `Append` and `Prefix` keep: non-empty bounded chunks whose recorded length and hashes are right. */
  ghost predicate Valid(h: Hasher, s: Sequence) {
    match s
    case Empty => true
    case Tail(chunk, visible) =>
      && 0 < visible <= |chunk.tokens| <= LOGICAL_CHUNK_TOKENS
      && Valid(h, chunk.parent)
      && chunk.startLen == |Tokens(chunk.parent)|
      && chunk.startHash == HashTokens(h, h.start, Tokens(chunk.parent))
      && chunk.endHash == h.finish(HashTokens(h, chunk.startHash, chunk.tokens))
  }

  lemma {:induction false} LenIsLength(h: Hasher, s: Sequence)
    requires Valid(h, s)
    ensures Len(s) == |Tokens(s)|
    ensures s.Empty? <==> Tokens(s) == []
  {
  }

  lemma {:induction false} HashConcat(h: Hasher, state: int, a: seq<Token>, b: seq<Token>)
    ensures HashTokens(h, state, a + b) == HashTokens(h, HashTokens(h, state, a), b)
    decreases |b|
  {
    if b == [] {
      assert a + b == a;
    } else {
      assert (a + b)[..|a + b| - 1] == a + b[..|b| - 1];
      HashConcat(h, state, a, b[..|b| - 1]);
    }
  }

  // ---- identity ----

  function HashState(h: Hasher, s: Sequence): int {
    match s
    case Empty => h.start
    case Tail(chunk, visible) =>
      HashTokens(h, chunk.startHash, if visible <= |chunk.tokens| then chunk.tokens[..visible] else chunk.tokens)
  }

  function Id(h: Hasher, s: Sequence): int {
    match s
    case Empty => h.finish(h.start)
    case Tail(chunk, visible) =>
      if visible == |chunk.tokens| then chunk.endHash else h.finish(HashState(h, s))
  }

  lemma {:induction false} HashStateOfTokens(h: Hasher, s: Sequence)
    requires Valid(h, s)
    ensures HashState(h, s) == HashTokens(h, h.start, Tokens(s))
  {
    if s.Tail? {
      HashConcat(h, h.start, Tokens(s.chunk.parent), s.chunk.tokens[..s.visible]);
    }
  }

  /** `id` is the digest of the tokens: it forgets how they were appended and which parents are only
      partly visible. */
  lemma {:induction false} IdOfTokens(h: Hasher, s: Sequence)
    requires Valid(h, s)
    ensures Id(h, s) == h.finish(HashTokens(h, h.start, Tokens(s)))
  {
    HashStateOfTokens(h, s);
    if s.Tail? && s.visible == |s.chunk.tokens| {
      assert s.chunk.tokens[..s.visible] == s.chunk.tokens;
    }
  }

  lemma {:induction false} IdIgnoresSegmentation(h: Hasher, s: Sequence, t: Sequence)
    requires Valid(h, s) && Valid(h, t)
    requires Tokens(s) == Tokens(t)
    ensures Id(h, s) == Id(h, t)
  {
    IdOfTokens(h, s);
    IdOfTokens(h, t);
  }

  // ---- append ----

  /** One chunk after `s`. */
  function Extended(h: Hasher, s: Sequence, tokens: seq<Token>): Sequence {
    var start := HashState(h, s);
    Tail(Chunk(s, Len(s), tokens, start, h.finish(HashTokens(h, start, tokens))), |tokens|)
  }

  lemma {:induction false} ExtendedValid(h: Hasher, s: Sequence, tokens: seq<Token>)
    requires Valid(h, s)
    requires 0 < |tokens| <= LOGICAL_CHUNK_TOKENS
    ensures Valid(h, Extended(h, s, tokens))
    ensures Tokens(Extended(h, s, tokens)) == Tokens(s) + tokens
    ensures HashState(h, Extended(h, s, tokens)) == HashTokens(h, HashState(h, s), tokens)
  {
    HashStateOfTokens(h, s);
    LenIsLength(h, s);
    assert tokens[..|tokens|] == tokens;
  }

  /** The sequence that the chunk loop builds, as a recursion on the tokens left. */
  function Appended(h: Hasher, s: Sequence, tokens: seq<Token>): Sequence
    decreases |tokens|
  {
    if tokens == [] then s
    else if |tokens| <= LOGICAL_CHUNK_TOKENS then Extended(h, s, tokens)
    else Appended(h, Extended(h, s, tokens[..LOGICAL_CHUNK_TOKENS]), tokens[LOGICAL_CHUNK_TOKENS..])
  }

  lemma {:induction false} AppendedTokens(h: Hasher, s: Sequence, tokens: seq<Token>)
    requires Valid(h, s)
    ensures Valid(h, Appended(h, s, tokens))
    ensures Tokens(Appended(h, s, tokens)) == Tokens(s) + tokens
    decreases |tokens|
  {
    if tokens == [] {
    } else if |tokens| <= LOGICAL_CHUNK_TOKENS {
      ExtendedValid(h, s, tokens);
    } else {
      var (head, rest) := (tokens[..LOGICAL_CHUNK_TOKENS], tokens[LOGICAL_CHUNK_TOKENS..]);
      ExtendedValid(h, s, head);
      AppendedTokens(h, Extended(h, s, head), rest);
      TakeTake(tokens, LOGICAL_CHUNK_TOKENS, LOGICAL_CHUNK_TOKENS);
      ConcatAssoc(Tokens(s), head, rest);
    }
  }

  lemma {:induction false} AppendStep(h: Hasher, s: Sequence, tokens: seq<Token>, i: nat, j: nat)
    requires i < |tokens|
    requires j == if i + LOGICAL_CHUNK_TOKENS <= |tokens| then i + LOGICAL_CHUNK_TOKENS else |tokens|
    ensures Appended(h, s, tokens[i..]) == Appended(h, Extended(h, s, tokens[i..j]), tokens[j..])
  {
    DropDrop(tokens, i, j);
    if j == |tokens| {
      assert tokens[i..j] == tokens[i..];
    }
  }

  /** Adds tokens as bounded chunks, carrying the hash state from chunk to chunk. */
  method Append(h: Hasher, s: Sequence, tokens: seq<Token>) returns (r: Sequence)
    requires Valid(h, s)
    ensures Valid(h, r)
    ensures Tokens(r) == Tokens(s) + tokens
    ensures r == Appended(h, s, tokens)
  {
    AppendedTokens(h, s, tokens);
    r := s;
    var hash := HashState(h, s);
    var i := 0;
    assert tokens[0..] == tokens;
    while i < |tokens|
      invariant 0 <= i <= |tokens|
      invariant Valid(h, r) && hash == HashState(h, r)
      invariant Appended(h, r, tokens[i..]) == Appended(h, s, tokens)
    {
      var j := if i + LOGICAL_CHUNK_TOKENS <= |tokens| then i + LOGICAL_CHUNK_TOKENS else |tokens|;
      var part := tokens[i..j];
      AppendStep(h, r, tokens, i, j);
      ExtendedValid(h, r, part);
      var startHash := hash;
      hash := HashTokens(h, hash, part);
      r := Tail(Chunk(r, Len(r), part, startHash, h.finish(hash)), |part|);
      i := j;
    }
  }

  // ---- prefix ----

  /** The visible prefix of length `len`: the chunk that holds its last token, cut there. */
  function PrefixOf(s: Sequence, len: nat): Sequence {
    match s
    case Empty => Empty
    case Tail(chunk, _) =>
      if len > chunk.startLen then Tail(chunk, len - chunk.startLen) else PrefixOf(chunk.parent, len)
  }

  lemma {:induction false} PrefixTokens(h: Hasher, s: Sequence, len: nat)
    requires Valid(h, s)
    requires len <= Len(s)
    ensures Valid(h, PrefixOf(s, len))
    ensures Tokens(PrefixOf(s, len)) == Tokens(s)[..len]
  {
    LenIsLength(h, s);
    if s.Tail? {
      var parent := Tokens(s.chunk.parent);
      if len > s.chunk.startLen {
        assert (parent + s.chunk.tokens[..s.visible])[..len] == parent + s.chunk.tokens[..len - |parent|];
      } else {
        LenIsLength(h, s.chunk.parent);
        PrefixTokens(h, s.chunk.parent, len);
        assert (parent + s.chunk.tokens[..s.visible])[..len] == parent[..len];
      }
    }
  }

  /** Walks parents from the newest chunk until one holds the cut. */
  method Prefix(h: Hasher, s: Sequence, len: nat) returns (r: Option<Sequence>)
    requires Valid(h, s)
    ensures r.None? <==> len > |Tokens(s)|
    ensures r.Some? ==> Valid(h, r.value) && Tokens(r.value) == Tokens(s)[..len]
    ensures r.Some? ==> r.value == PrefixOf(s, len)
  {
    LenIsLength(h, s);
    if len > Len(s) {
      return None;
    }
    PrefixTokens(h, s, len);
    var tail := s;
    while tail.Tail?
      invariant PrefixOf(tail, len) == PrefixOf(s, len)
      decreases tail
    {
      if len > tail.chunk.startLen {
        return Some(Tail(tail.chunk, len - tail.chunk.startLen));
      }
      tail := tail.chunk.parent;
    }
    return Some(Empty);
  }

  /** Appending never touches storage already there: every prefix of `s` is the same chunk and cut in the
      longer sequence, so two branches of `s` share all of it. */
  lemma {:induction false} BranchesSharePrefix(h: Hasher, s: Sequence, left: seq<Token>, right: seq<Token>, len: nat)
    requires Valid(h, s)
    requires len <= Len(s)
    ensures PrefixOf(Appended(h, s, left), len) == PrefixOf(s, len) == PrefixOf(Appended(h, s, right), len)
    ensures PrefixOf(s, Len(s)) == s
  {
    AppendedKeepsPrefix(h, s, left, len);
    AppendedKeepsPrefix(h, s, right, len);
  }

  lemma {:induction false} AppendedKeepsPrefix(h: Hasher, s: Sequence, tokens: seq<Token>, len: nat)
    requires Valid(h, s)
    requires len <= Len(s)
    ensures PrefixOf(Appended(h, s, tokens), len) == PrefixOf(s, len)
    decreases |tokens|
  {
    if |tokens| > LOGICAL_CHUNK_TOKENS {
      var head := tokens[..LOGICAL_CHUNK_TOKENS];
      ExtendedValid(h, s, head);
      LenIsLength(h, s);
      LenIsLength(h, Extended(h, s, head));
      AppendedKeepsPrefix(h, Extended(h, s, head), tokens[LOGICAL_CHUNK_TOKENS..], len);
    }
  }

  // ---- reverse iteration and equality ----

  /** The tokens an iterator at (`tail`, `offset`) has still to yield, in forward order. */
  ghost function Before(tail: Sequence, offset: nat): seq<Token>
    requires tail.Tail? ==> offset <= |tail.chunk.tokens|
  {
    if tail.Empty? then [] else Tokens(tail.chunk.parent) + tail.chunk.tokens[..offset]
  }

  lemma {:induction false} BeforeStep(tail: Sequence, offset: nat)
    requires tail.Tail? && 0 < offset <= |tail.chunk.tokens|
    ensures Before(tail, offset) == Before(tail, offset - 1) + [tail.chunk.tokens[offset - 1]]
  {
    TakeTake(tail.chunk.tokens, offset - 1, offset);
    assert tail.chunk.tokens[offset - 1..offset] == [tail.chunk.tokens[offset - 1]];
    ConcatAssoc(Tokens(tail.chunk.parent), tail.chunk.tokens[..offset - 1], [tail.chunk.tokens[offset - 1]]);
  }

  lemma {:induction false} BeforeParent(h: Hasher, tail: Sequence)
    requires Valid(h, tail) && tail.Tail?
    ensures Before(tail, 0) == Tokens(tail.chunk.parent)
    ensures Tokens(tail) == Before(tail, tail.visible)
  {
    assert tail.chunk.tokens[..0] == [];
  }

  /** The iterator over a sequence from its last token to its first. */
  class ReverseTokens {
    var tail: Sequence
    var offset: nat

    ghost predicate Positioned(h: Hasher)
      reads this
    {
      Valid(h, tail) && (if tail.Empty? then offset == 0 else offset <= tail.visible)
    }

    ghost function Remaining(h: Hasher): seq<Token>
      requires Positioned(h)
      reads this
    {
      Before(tail, offset)
    }

    constructor (h: Hasher, s: Sequence)
      requires Valid(h, s)
      ensures Positioned(h)
      ensures Remaining(h) == Tokens(s)
    {
      tail := s;
      offset := if s.Empty? then 0 else s.visible;
    }

    method Next(h: Hasher) returns (t: Option<Token>)
      requires Positioned(h)
      modifies this
      ensures Positioned(h)
      ensures t.None? ==> old(Remaining(h)) == Remaining(h) == []
      ensures t.Some? ==> old(Remaining(h)) == Remaining(h) + [t.value]
    {
      while tail.Tail?
        invariant Positioned(h)
        invariant Remaining(h) == old(Remaining(h))
        decreases tail
      {
        if offset > 0 {
          BeforeStep(tail, offset);
          offset := offset - 1;
          return Some(tail.chunk.tokens[offset]);
        }
        BeforeParent(h, tail);
        if tail.chunk.parent.Tail? {
          BeforeParent(h, tail.chunk.parent);
        }
        tail := tail.chunk.parent;
        offset := if tail.Empty? then 0 else tail.visible;
      }
      return None;
    }
  }

  /** Collects the reverse iterator and reverses it. */
  method Collect(h: Hasher, s: Sequence) returns (tokens: seq<Token>)
    requires Valid(h, s)
    ensures tokens == Tokens(s)
  {
    tokens := [];
    var it := new ReverseTokens(h, s);
    while true
      invariant it.Positioned(h)
      invariant Tokens(s) == it.Remaining(h) + tokens
      decreases |it.Remaining(h)|
    {
      var next := it.Next(h);
      if next.None? {
        return;
      }
      ConcatAssoc(it.Remaining(h), [next.value], tokens);
      tokens := [next.value] + tokens;
    }
  }

  /** Token equality. `sameChunk` is the identity comparison of the two newest chunks: it may only be true of
      equal chunks, and the answer does not depend on it. */
  method Equal(h: Hasher, a: Sequence, b: Sequence, sameChunk: bool) returns (equal: bool)
    requires Valid(h, a) && Valid(h, b)
    requires sameChunk ==> a.Tail? && b.Tail? && a.chunk == b.chunk
    ensures equal <==> Tokens(a) == Tokens(b)
  {
    LenIsLength(h, a);
    LenIsLength(h, b);
    if Len(a) != Len(b) {
      return false;
    }
    if a.Empty? && b.Empty? {
      return true;
    }
    if a.Tail? && b.Tail? && a.visible == b.visible && sameChunk {
      return true;
    }
    equal := EqualReversed(h, a, b);
  }

  method EqualReversed(h: Hasher, a: Sequence, b: Sequence) returns (equal: bool)
    requires Valid(h, a) && Valid(h, b)
    requires |Tokens(a)| == |Tokens(b)|
    ensures equal <==> Tokens(a) == Tokens(b)
  {
    var left := new ReverseTokens(h, a);
    var right := new ReverseTokens(h, b);
    ghost var suffix: seq<Token> := [];
    while true
      invariant left != right && fresh(left) && fresh(right)
      invariant left.Positioned(h) && right.Positioned(h)
      invariant Tokens(a) == left.Remaining(h) + suffix
      invariant Tokens(b) == right.Remaining(h) + suffix
      decreases |left.Remaining(h)|
    {
      var x := left.Next(h);
      var y := right.Next(h);
      if x.None? || y.None? {
        return x.None? && y.None?;
      }
      if x.value != y.value {
        if Tokens(a) == Tokens(b) {
          SuffixUnique(left.Remaining(h), x.value, right.Remaining(h), y.value, suffix);
        }
        return false;
      }
      ConcatAssoc(left.Remaining(h), [x.value], suffix);
      ConcatAssoc(right.Remaining(h), [x.value], suffix);
      suffix := [x.value] + suffix;
    }
  }
}
