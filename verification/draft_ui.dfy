/**
 * The earlier UI layer of src/ui/UI.js: the same region tree, but element
 * ids come from a global construction counter, and the only signal is a
 * pointer position, which frames pass to every child unchecked and plain
 * elements answer when it falls inside their rectangle.
 */
module DraftUi {
  import opened Wrappers
  import opened RegionTree

  /** The plain elements among `ms`, in order, whose rectangle holds the point (x, y). */
  ghost function Reacting(nodes: seq<Region>, ms: seq<nat>, x: real, y: real): seq<nat> {
    if ms == [] then []
    else
      var last := ms[|ms| - 1];
      Reacting(nodes, ms[..|ms| - 1], x, y)
        + (if last < |nodes| && !nodes[last].isFrame && WithinBounds(nodes[last], x, y) then [last] else [])
  }

  lemma {:induction false} ReactingAppend(nodes: seq<Region>, a: seq<nat>, b: seq<nat>, x: real, y: real)
    ensures Reacting(nodes, a + b, x, y) == Reacting(nodes, a, x, y) + Reacting(nodes, b, x, y)
    decreases |b|
  {
    if b == [] {
      assert a + b == a;
    } else {
      var b' := b[..|b| - 1];
      ReactingAppend(nodes, a, b', x, y);
      assert (a + b)[..|a + b| - 1] == a + b';
      assert (a + b)[|a + b| - 1] == b[|b| - 1];
    }
  }

  /** Only plain elements react, and only those whose rectangle holds the point. */
  lemma {:induction false} ReactingAreLeavesHit(nodes: seq<Region>, ms: seq<nat>, x: real, y: real)
    ensures forall m :: m in Reacting(nodes, ms, x, y) ==>
      m in ms && m < |nodes| && !nodes[m].isFrame && WithinBounds(nodes[m], x, y)
  {
    if ms != [] {
      ReactingAreLeavesHit(nodes, ms[..|ms| - 1], x, y);
      assert forall m :: m in ms[..|ms| - 1] ==> m in ms;
    }
  }

  /** Every plain element in the list whose rectangle holds the point does react. */
  lemma {:induction false} LeavesHitReact(nodes: seq<Region>, ms: seq<nat>, x: real, y: real, m: nat)
    requires m in ms && m < |nodes| && !nodes[m].isFrame && WithinBounds(nodes[m], x, y)
    ensures m in Reacting(nodes, ms, x, y)
  {
    if ms[|ms| - 1] != m {
      var init := ms[..|ms| - 1];
      assert ms == init + [ms[|ms| - 1]];
      assert m in init;
      LeavesHitReact(nodes, init, x, y, m);
    }
  }

  class DraftUiTree {
    var nodes: seq<Region>
    /** `UIElement.elementCount`: how many elements have been constructed. */
    var elementCount: int
    ghost var rank: seq<nat>
    ghost var bound: nat

    /** A forest in which every region not yet adopted still carries the id it was constructed with. */
    ghost predicate Valid()
      reads this
    {
      && Ranked(nodes, rank, bound) && 0 < bound
      && elementCount == |nodes|
      && (forall i :: 0 <= i < |nodes| && nodes[i].parent.None? ==> nodes[i].id == Num(i))
    }

    constructor()
      ensures Valid() && nodes == [] && elementCount == 0
    {
      nodes := [];
      elementCount := 0;
      rank := [];
      bound := 1;
    }

    /** Constructs a detached element or frame; its id is the construction counter, which advances. */
    method NewRegion(width: real, height: real, isFrame: bool) returns (n: nat)
      requires Valid()
      modifies this`nodes, this`elementCount, this`rank
      ensures Valid()
      ensures n == old(elementCount) && elementCount == old(elementCount) + 1
      ensures nodes == old(nodes) + [Detached(width, height, Num(n), isFrame)]
    {
      AppendKeepsRanked(nodes, rank, bound, width, height, Num(elementCount), isFrame);
      n := elementCount;
      nodes := nodes + [Detached(width, height, Num(n), isFrame)];
      elementCount := elementCount + 1;
      rank := rank + [0];
    }

    /** `_generateChildId`: hands out the frame's counter and advances it. */
    method GenerateChildId(frame: nat) returns (key: ChildKey)
      requires frame < |nodes|
      modifies this`nodes
      ensures key == Num(old(nodes[frame].currentChildId))
      ensures nodes == old(nodes)[frame := old(nodes[frame]).(currentChildId := old(nodes[frame].currentChildId) + 1)]
    {
      key := Num(nodes[frame].currentChildId);
      nodes := nodes[frame := nodes[frame].(currentChildId := nodes[frame].currentChildId + 1)];
    }

    /** `acceptParentUIFrame`: the region records its id, parent and origin. */
    method AcceptParentUIFrame(child: nat, x: real, y: real, parent: nat, id: ChildKey)
      requires child < |nodes|
      modifies this`nodes
      ensures nodes == old(nodes)[child := old(nodes[child]).(id := id, parent := Some(parent), originX := x, originY := y)]
    {
      nodes := nodes[child := nodes[child].(id := id, parent := Some(parent), originX := x, originY := y)];
    }

    /** `adoptChildUIFrame`, as in the later version. */
    method AdoptChild(frame: nat, x: real, y: real, child: nat, id: Option<ChildKey>)
      requires Valid() && frame < |nodes| && child < |nodes|
      requires nodes[frame].isFrame && nodes[child].parent.None?
      requires TopOf(nodes, rank, bound, frame) != child
      modifies this`nodes, this`rank, this`bound
      ensures Valid()
      ensures nodes == Adopted(old(nodes), frame, x, y, child, id)
    {
      assert TopOf(nodes, rank, bound, child) == child;
      AdoptKeepsRanked(nodes, rank, bound, frame, x, y, child, id);
      rank := Rerank(nodes, rank, bound, child);
      bound := 2 * bound;
      LinkChild(frame, x, y, child, id);
    }

    method LinkChild(frame: nat, x: real, y: real, child: nat, id: Option<ChildKey>)
      requires frame < |nodes| && child < |nodes| && frame != child
      modifies this`nodes
      ensures nodes == Adopted(old(nodes), frame, x, y, child, id)
    {
      var key: ChildKey;
      if id.Some? {
        key := id.value;
      } else {
        key := GenerateChildId(frame);
      }
      AcceptParentUIFrame(child, x, y, frame, key);
      nodes := nodes[frame := nodes[frame].(children := MapSet(nodes[frame].children, key, child))];
    }

    /**
     * `_handlePointSignal` on region `n`: a frame passes the point to each
     * child in insertion order whether or not it holds the point; a plain
     * element reacts when the point is inside its rectangle.
     */
    method HandlePointSignal(n: nat, x: real, y: real) returns (reacted: seq<nat>)
      requires Valid() && n < |nodes|
      ensures reacted == Reacting(nodes, Preorder(nodes, rank, bound, n), x, y)
      decreases rank[n]
    {
      var children := nodes[n].children;
      assert Preorder(nodes, rank, bound, n) == [n] + PreorderOfChildren(nodes, rank, bound, n, |children|);
      ReactingAppend(nodes, [n], PreorderOfChildren(nodes, rank, bound, n, |children|), x, y);
      assert [n][..0] == [];
      if !nodes[n].isFrame {
        assert LinksOk(nodes, rank, bound, n);
        reacted := if WithinBounds(nodes[n], x, y) then [n] else [];
      } else {
        reacted := [];
        var i := 0;
        while i < |children|
          invariant 0 <= i <= |children|
          invariant reacted == Reacting(nodes, PreorderOfChildren(nodes, rank, bound, n, i), x, y)
        {
          ChildLink(nodes, rank, bound, n, i);
          var sub := HandlePointSignal(children[i].1, x, y);
          ReactingAppend(nodes, PreorderOfChildren(nodes, rank, bound, n, i), Preorder(nodes, rank, bound, children[i].1), x, y);
          reacted := reacted + sub;
          i := i + 1;
        }
      }
    }
  }
}
