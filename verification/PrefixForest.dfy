/**
 Published prefixes as a forest.

 Every evaluated prefix may depend on a shorter one. The store keeps reference counts and reclaims a prefix,
 then its parents, when the counts reach zero. This module says what that should amount to without any count:
 `Traced` keeps exactly the prefixes that are an ancestor of some root.
 */
module PrefixForest {
  import opened Options
  import opened TokenSequence

  type Id = nat
  type ContextId = nat

  datatype Component = GlobalKv | Swa | Recurrent
  type Mask = set<Component>

  datatype Epochs = Epochs(model: nat, adapter: nat)

  datatype EvaluatedPrefix = EvaluatedPrefix(
    id: Id, branch: nat, end: nat, epochs: Epochs, parent: Option<Id>, lineage: nat,
    required: Mask, complete: Mask, parameters: nat, sequence: seq<Token>)

  datatype Context = Context(tokens: seq<Token>, epochs: Epochs, evaluated: Option<Id>, revision: nat)

  type Published = map<Id, EvaluatedPrefix>

  /** The parent is live, strictly shorter and of the same epochs. */
  predicate ParentFits(p: Published, m: EvaluatedPrefix) {
    m.parent.Some? ==>
      && m.parent.value in p
      && p[m.parent.value].end < m.end
      && p[m.parent.value].epochs == m.epochs
  }

  predicate WellFormed(m: EvaluatedPrefix) {
    m.required <= m.complete && m.end == |m.sequence|
  }

  predicate Fits(p: Published, id: Id)
    requires id in p
  {
    p[id].id == id && WellFormed(p[id]) && ParentFits(p, p[id])
  }

  ghost predicate Forest(p: Published) {
    forall id {:trigger Fits(p, id)} :: id in p ==> Fits(p, id)
  }

  /** `d` itself, its parent, and so on up. */
  ghost function Ancestors(p: Published, d: Id): set<Id>
    requires Forest(p) && d in p
    decreases p[d].end
  {
    assert Fits(p, d);
    {d} + if p[d].parent.Some? then Ancestors(p, p[d].parent.value) else {}
  }

  ghost predicate Anchored(p: Published, roots: set<Id>, id: Id)
    requires Forest(p)
  {
    exists r :: r in roots && r in p && id in Ancestors(p, r)
  }

  /** Tracing collection: what is left when everything that no root depends on is gone. */
  ghost function Traced(p: Published, roots: set<Id>): Published
    requires Forest(p)
  {
    map id | id in p && Anchored(p, roots, id) :: p[id]
  }

  lemma {:induction false} AncestorsClosed(p: Published, d: Id, a: Id)
    requires Forest(p) && d in p && a in Ancestors(p, d)
    ensures a in p
    ensures p[a].parent.Some? ==> p[a].parent.value in Ancestors(p, d)
    ensures Ancestors(p, a) <= Ancestors(p, d)
    decreases p[d].end
  {
    assert Fits(p, d);
    if a != d {
      AncestorsClosed(p, p[d].parent.value, a);
    }
  }

  /** A part of the forest that is closed under parents has the same ancestors. */
  lemma {:induction false} SubforestAncestors(p: Published, q: Published, d: Id)
    requires Forest(p) && Forest(q) && d in q
    requires forall id :: id in q ==> id in p && q[id] == p[id]
    ensures Ancestors(q, d) == Ancestors(p, d)
    decreases q[d].end
  {
    assert Fits(q, d) && Fits(p, d);
    if q[d].parent.Some? {
      SubforestAncestors(p, q, q[d].parent.value);
    }
  }

  ghost predicate HasChild(p: Published, id: Id) {
    exists c :: c in p && p[c].parent == Some(id)
  }

  ghost function Longer(p: Published, end: nat): set<Id> {
    set m | m in p && p[m].end > end
  }

  /** If everything is a root or has a child, everything is anchored: follow children, whose ends grow. */
  lemma {:induction false} NoLeafGarbage(p: Published, roots: set<Id>, id: Id)
    requires Forest(p) && id in p
    requires forall m :: m in p ==> m in roots || HasChild(p, m)
    ensures Anchored(p, roots, id)
    decreases Longer(p, p[id].end)
  {
    if id in roots {
      assert id in Ancestors(p, id);
    } else {
      var c :| c in p && p[c].parent == Some(id);
      assert Fits(p, c);
      assert c in Longer(p, p[id].end) && c !in Longer(p, p[c].end);
      assert Longer(p, p[c].end) < Longer(p, p[id].end);
      NoLeafGarbage(p, roots, c);
      var r :| r in roots && r in p && c in Ancestors(p, r);
      AncestorsClosed(p, r, c);
    }
  }

  /** Whatever a part of the forest anchors, the whole anchors; and the part holds the ancestors of its roots. */
  lemma SubforestAnchors(p: Published, q: Published, roots: set<Id>, id: Id)
    requires Forest(p) && Forest(q) && id in p
    requires forall m :: m in q ==> m in p && q[m] == p[m]
    ensures id in q && Anchored(q, roots, id) ==> Anchored(p, roots, id)
    ensures (forall r :: r in roots && r in p ==> r in q) && Anchored(p, roots, id)
            ==> id in q && Anchored(q, roots, id)
  {
    if id in q && Anchored(q, roots, id) {
      var r :| r in roots && r in q && id in Ancestors(q, r);
      SubforestAncestors(p, q, r);
    }
    if (forall r :: r in roots && r in p ==> r in q) && Anchored(p, roots, id) {
      var r :| r in roots && r in p && id in Ancestors(p, r);
      SubforestAncestors(p, q, r);
      AncestorsClosed(q, r, id);
    }
  }

  /** Reference counting meets tracing: a part that keeps the roots, is closed under parents and has no
      unreferenced member is exactly the traced part. */
  lemma CountedIsTraced(p: Published, q: Published, roots: set<Id>)
    requires Forest(p) && Forest(q)
    requires forall id :: id in q ==> id in p && q[id] == p[id]
    requires forall r :: r in roots && r in p ==> r in q
    requires forall m :: m in q ==> m in roots || HasChild(q, m)
    ensures q == Traced(p, roots)
  {
    forall id | id in p
      ensures id in q <==> Anchored(p, roots, id)
    {
      if id in q {
        NoLeafGarbage(q, roots, id);
      }
      SubforestAnchors(p, q, roots, id);
    }
  }

  /** Making an anchored prefix a root anchors nothing new. */
  lemma AnchoredRoot(p: Published, roots: set<Id>, id: Id, m: Id)
    requires Forest(p) && id in p && m in p && Anchored(p, roots, id)
    ensures Anchored(p, roots + {id}, m) <==> Anchored(p, roots, m)
  {
    if Anchored(p, roots + {id}, m) {
      var s :| s in roots + {id} && s in p && m in Ancestors(p, s);
      if s == id {
        var r :| r in roots && r in p && id in Ancestors(p, r);
        AncestorsClosed(p, r, id);
      }
    }
    if Anchored(p, roots, m) {
      var s :| s in roots && s in p && m in Ancestors(p, s);
      assert s in roots + {id};
    }
  }

  /** So it keeps the same prefixes. */
  lemma TracedAgain(p: Published, roots: set<Id>, id: Id)
    requires Forest(p) && id in p && Anchored(p, roots, id)
    ensures Traced(p, roots + {id}) == Traced(p, roots)
  {
    forall m | m in p
      ensures Anchored(p, roots + {id}, m) <==> Anchored(p, roots, m)
    {
      AnchoredRoot(p, roots, id, m);
    }
  }

  /** When every prefix is a root there is nothing to collect. */
  lemma AllRootsTraced(p: Published, roots: set<Id>)
    requires Forest(p)
    requires forall id :: id in p ==> id in roots
    ensures Traced(p, roots) == p
  {
    forall id | id in p
      ensures Anchored(p, roots, id)
    {
      assert id in Ancestors(p, id);
    }
  }

  // ---- which prefixes serve a context ----

  /** Epochs, completeness and tokens agree with the context. */
  predicate Matches(m: EvaluatedPrefix, c: Context) {
    && m.epochs == c.epochs
    && m.required <= m.complete
    && m.end <= |c.tokens|
    && c.tokens[..m.end] == m.sequence
  }

  /** What the walk over recorded parents checks, on any set of published prefixes. */
  predicate AncestorsHold(p: Published, m: EvaluatedPrefix)
    decreases m.end
  {
    m.parent.Some? ==>
      && m.parent.value in p
      && p[m.parent.value].end < m.end
      && p[m.parent.value].epochs == m.epochs
      && p[m.parent.value].required <= p[m.parent.value].complete
      && AncestorsHold(p, p[m.parent.value])
  }

  /** In a forest the walk never rejects. */
  lemma {:induction false} WalkNeverRejects(p: Published, m: EvaluatedPrefix)
    requires Forest(p) && ParentFits(p, m)
    ensures AncestorsHold(p, m)
    decreases m.end
  {
    if m.parent.Some? {
      assert Fits(p, m.parent.value);
      WalkNeverRejects(p, p[m.parent.value]);
    }
  }

  /** `best` is the longest published prefix that serves the context, the smallest id on a tie; found by
      looking at all of them. */
  ghost predicate IsLongest(p: Published, c: Context, best: Option<EvaluatedPrefix>) {
    match best
    case None => forall id :: id in p ==> !Matches(p[id], c)
    case Some(b) =>
      && b.id in p && p[b.id] == b && Matches(b, c)
      && forall id :: id in p && Matches(p[id], c) ==> p[id].end < b.end || (p[id].end == b.end && b.id <= id)
  }

  lemma LongestUnique(p: Published, c: Context, a: Option<EvaluatedPrefix>, b: Option<EvaluatedPrefix>)
    requires Forest(p) && IsLongest(p, c, a) && IsLongest(p, c, b)
    ensures a == b
  {
    if a.Some? && b.Some? {
      assert p[a.value.id] == a.value && p[b.value.id] == b.value;
    }
  }
}
