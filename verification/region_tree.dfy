/**
 * The UI region tree shared by both versions of the UI layer (src/js/ui/UI.js
 * and the earlier src/ui/UI.js): rectangular regions kept in an arena
 * `seq<Region>`, each with a parent index and an insertion-ordered map from
 * child id to child region, as a JavaScript `Map` keeps it.
 *
 * Termination of walks down and up the tree rests on a ghost `rank`: a
 * parent always outranks its child, and every rank is below `bound`.
 */
module RegionTree {
  import opened Wrappers

  /** A child id: generated ids are numbers, supplied ones usually strings. */
  datatype ChildKey = Num(n: int) | Str(s: string)

  /**
   * A `UIElement` (`isFrame` false) or `UIFrame`: origin in the parent's
   * space, size, id, parent, and for a frame its child map and id counter.
   */
  datatype Region = Region(
    originX: real, originY: real, width: real, height: real,
    id: ChildKey,
    parent: Option<nat>,
    isFrame: bool,
    children: seq<(ChildKey, nat)>,
    currentChildId: int)

  datatype EventData = Bounds(originX: real, originY: real, width: real, height: real) | Payload(tag: string)

  datatype Event = Event(kind: string, data: EventData)

  /** A freshly constructed region: detached, at the origin, no children, counter 0. */
  function Detached(width: real, height: real, id: ChildKey, isFrame: bool): Region {
    Region(0.0, 0.0, width, height, id, None, isFrame, [], 0)
  }

  /** The `render` event a region announces while rendering. */
  function RenderEvent(r: Region): Event {
    Event("render", Bounds(r.originX, r.originY, r.width, r.height))
  }

  /** `_pointWithinBounds`: a point in the parent's space against the region's rectangle. */
  predicate WithinBounds(r: Region, x: real, y: real) {
    && r.originX <= x && x <= r.originX + r.width
    && r.originY <= y && y <= r.originY + r.height
  }

  /** The test is inclusive on all four edges: corners are inside, anything beyond an edge is not. */
  lemma BoundsInclusive(r: Region, x: real, y: real)
    requires r.width >= 0.0 && r.height >= 0.0
    ensures WithinBounds(r, r.originX, r.originY)
    ensures WithinBounds(r, r.originX + r.width, r.originY + r.height)
    ensures x < r.originX || x > r.originX + r.width || y < r.originY || y > r.originY + r.height
            ==> !WithinBounds(r, x, y)
  {
  }

  // ---------------------------------------------------------------------
  // The insertion-ordered child map

  function MapKeys<K, V>(m: seq<(K, V)>): (ks: seq<K>)
    ensures |ks| == |m|
    ensures forall j :: 0 <= j < |m| ==> ks[j] == m[j].0
  {
    if m == [] then [] else [m[0].0] + MapKeys(m[1..])
  }

  /** `Map.get`. */
  function MapGet<K(==), V>(m: seq<(K, V)>, k: K): (r: Option<V>)
    ensures r.None? <==> k !in MapKeys(m)
  {
    if m == [] then None else if m[0].0 == k then Some(m[0].1) else MapGet(m[1..], k)
  }

  /** `Map.set`: an existing key keeps its place and takes the new value; a new key goes last. */
  function MapSet<K(==), V>(m: seq<(K, V)>, k: K, v: V): (m': seq<(K, V)>)
    ensures forall e :: e in m' ==> e == (k, v) || e in m
    ensures k !in MapKeys(m) ==> m' == m + [(k, v)]
    ensures k in MapKeys(m) ==> MapKeys(m') == MapKeys(m)
  {
    if m == [] then [(k, v)]
    else if m[0].0 == k then [(k, v)] + m[1..]
    else [m[0]] + MapSet(m[1..], k, v)
  }

  /** After `set(k, v)`, `get(k)` is `v` and every other key maps as before. */
  lemma {:induction false} MapSetGet<K, V>(m: seq<(K, V)>, k: K, v: V, k': K)
    ensures MapGet(MapSet(m, k, v), k) == Some(v)
    ensures k' != k ==> MapGet(MapSet(m, k, v), k') == MapGet(m, k')
  {
    if m != [] && m[0].0 != k {
      MapSetGet(m[1..], k, v, k');
    }
  }

  // ---------------------------------------------------------------------
  // Tree shape

  /**
   * Region `n`'s links are sound: it ranks below `bound`, its parent is a
   * frame that outranks it, each child it lists names it as parent, and a
   * plain element lists no children.
   */
  ghost predicate LinksOk(nodes: seq<Region>, rank: seq<nat>, bound: nat, n: nat)
    requires |rank| == |nodes| && n < |nodes|
  {
    && rank[n] < bound
    && (nodes[n].parent.Some? ==>
          nodes[n].parent.value < |nodes| && nodes[nodes[n].parent.value].isFrame
          && rank[n] < rank[nodes[n].parent.value])
    && (forall j :: 0 <= j < |nodes[n].children| ==>
          nodes[n].children[j].1 < |nodes| && nodes[nodes[n].children[j].1].parent == Some(n))
    && (!nodes[n].isFrame ==> nodes[n].children == [])
  }

  /** The arena is a forest: every region's links are sound. */
  ghost predicate Ranked(nodes: seq<Region>, rank: seq<nat>, bound: nat) {
    |rank| == |nodes| && forall n :: 0 <= n < |nodes| ==> LinksOk(nodes, rank, bound, n)
  }

  /** A region's parent is a frame of higher rank. */
  lemma ParentLink(nodes: seq<Region>, rank: seq<nat>, bound: nat, n: nat)
    requires Ranked(nodes, rank, bound) && n < |nodes| && nodes[n].parent.Some?
    ensures nodes[n].parent.value < |nodes| && nodes[nodes[n].parent.value].isFrame
    ensures rank[n] < rank[nodes[n].parent.value] < bound
  {
    assert LinksOk(nodes, rank, bound, n);
    assert LinksOk(nodes, rank, bound, nodes[n].parent.value);
  }

  /** A listed child is a region of lower rank whose parent is the lister, which is a frame. */
  lemma ChildLink(nodes: seq<Region>, rank: seq<nat>, bound: nat, n: nat, j: nat)
    requires Ranked(nodes, rank, bound) && n < |nodes| && j < |nodes[n].children|
    ensures nodes[n].children[j].1 < |nodes| && nodes[nodes[n].children[j].1].parent == Some(n)
    ensures rank[nodes[n].children[j].1] < rank[n] && nodes[n].isFrame
  {
    assert LinksOk(nodes, rank, bound, n);
    assert LinksOk(nodes, rank, bound, nodes[n].children[j].1);
  }

  /** The region at the top of `n`'s parent chain. */
  ghost function TopOf(nodes: seq<Region>, rank: seq<nat>, bound: nat, n: nat): (t: nat)
    requires Ranked(nodes, rank, bound) && n < |nodes|
    ensures t < |nodes| && nodes[t].parent.None?
    decreases bound - rank[n]
  {
    if nodes[n].parent.None? then n
    else
      ParentLink(nodes, rank, bound, n);
      TopOf(nodes, rank, bound, nodes[n].parent.value)
  }

  /** Whether `newEvent` called on `n` climbs to region 0, the root, which hands it on. */
  ghost predicate ReachesRoot(nodes: seq<Region>, rank: seq<nat>, bound: nat, n: nat)
    requires Ranked(nodes, rank, bound) && n < |nodes|
    decreases bound - rank[n]
  {
    if n == 0 then true
    else if nodes[n].parent.None? then false
    else
      ParentLink(nodes, rank, bound, n);
      ReachesRoot(nodes, rank, bound, nodes[n].parent.value)
  }

  /** With a parentless root, an event reaches it exactly from the regions of the root's tree. */
  lemma {:induction false} ReachesRootIffInRootTree(nodes: seq<Region>, rank: seq<nat>, bound: nat, n: nat)
    requires Ranked(nodes, rank, bound) && n < |nodes| && 0 < |nodes| && nodes[0].parent.None?
    ensures ReachesRoot(nodes, rank, bound, n) <==> TopOf(nodes, rank, bound, n) == 0
    decreases bound - rank[n]
  {
    if n != 0 && nodes[n].parent.Some? {
      ParentLink(nodes, rank, bound, n);
      ReachesRootIffInRootTree(nodes, rank, bound, nodes[n].parent.value);
    }
  }

  /** Dispatch order: the region, then each child's subtree in insertion order. */
  ghost function Preorder(nodes: seq<Region>, rank: seq<nat>, bound: nat, n: nat): (r: seq<nat>)
    requires Ranked(nodes, rank, bound) && n < |nodes|
    decreases rank[n], 1
  {
    [n] + PreorderOfChildren(nodes, rank, bound, n, |nodes[n].children|)
  }

  /** The dispatch order of the first `k` children of `n`, one after another. */
  ghost function PreorderOfChildren(nodes: seq<Region>, rank: seq<nat>, bound: nat, n: nat, k: nat): (r: seq<nat>)
    requires Ranked(nodes, rank, bound) && n < |nodes| && k <= |nodes[n].children|
    decreases rank[n], 0, k
  {
    if k == 0 then []
    else
      ChildLink(nodes, rank, bound, n, k - 1);
      PreorderOfChildren(nodes, rank, bound, n, k - 1) + Preorder(nodes, rank, bound, nodes[n].children[k - 1].1)
  }

  /** Render order: each child's subtree in insertion order, then the region itself. */
  ghost function Postorder(nodes: seq<Region>, rank: seq<nat>, bound: nat, n: nat): (r: seq<nat>)
    requires Ranked(nodes, rank, bound) && n < |nodes|
    decreases rank[n], 1
  {
    PostorderOfChildren(nodes, rank, bound, n, |nodes[n].children|) + [n]
  }

  ghost function PostorderOfChildren(nodes: seq<Region>, rank: seq<nat>, bound: nat, n: nat, k: nat): (r: seq<nat>)
    requires Ranked(nodes, rank, bound) && n < |nodes| && k <= |nodes[n].children|
    decreases rank[n], 0, k
  {
    if k == 0 then []
    else
      ChildLink(nodes, rank, bound, n, k - 1);
      PostorderOfChildren(nodes, rank, bound, n, k - 1) + Postorder(nodes, rank, bound, nodes[n].children[k - 1].1)
  }

  /** Every region a walk from `n` visits lies in `n`'s tree, i.e. shares its top. */
  lemma {:induction false} PreorderStaysInTree(nodes: seq<Region>, rank: seq<nat>, bound: nat, n: nat)
    requires Ranked(nodes, rank, bound) && n < |nodes|
    ensures forall m :: m in Preorder(nodes, rank, bound, n) ==>
      m < |nodes| && TopOf(nodes, rank, bound, m) == TopOf(nodes, rank, bound, n)
    decreases rank[n], 1
  {
    PreorderOfChildrenStaysInTree(nodes, rank, bound, n, |nodes[n].children|);
  }

  lemma {:induction false} PreorderOfChildrenStaysInTree(nodes: seq<Region>, rank: seq<nat>, bound: nat, n: nat, k: nat)
    requires Ranked(nodes, rank, bound) && n < |nodes| && k <= |nodes[n].children|
    ensures forall m :: m in PreorderOfChildren(nodes, rank, bound, n, k) ==>
      m < |nodes| && TopOf(nodes, rank, bound, m) == TopOf(nodes, rank, bound, n)
    decreases rank[n], 0, k
  {
    if k > 0 {
      var c := nodes[n].children[k - 1].1;
      ChildLink(nodes, rank, bound, n, k - 1);
      PreorderOfChildrenStaysInTree(nodes, rank, bound, n, k - 1);
      PreorderStaysInTree(nodes, rank, bound, c);
      assert TopOf(nodes, rank, bound, c) == TopOf(nodes, rank, bound, n);
    }
  }

  /** Render order visits exactly the regions dispatch visits: the same multiset, container first versus last. */
  lemma {:induction false} PostorderPermutesPreorder(nodes: seq<Region>, rank: seq<nat>, bound: nat, n: nat)
    requires Ranked(nodes, rank, bound) && n < |nodes|
    ensures multiset(Postorder(nodes, rank, bound, n)) == multiset(Preorder(nodes, rank, bound, n))
    ensures Preorder(nodes, rank, bound, n)[0] == n
    ensures Postorder(nodes, rank, bound, n)[|Postorder(nodes, rank, bound, n)| - 1] == n
    decreases rank[n], 1
  {
    PostorderOfChildrenPermutes(nodes, rank, bound, n, |nodes[n].children|);
  }

  lemma {:induction false} PostorderOfChildrenPermutes(nodes: seq<Region>, rank: seq<nat>, bound: nat, n: nat, k: nat)
    requires Ranked(nodes, rank, bound) && n < |nodes| && k <= |nodes[n].children|
    ensures multiset(PostorderOfChildren(nodes, rank, bound, n, k)) == multiset(PreorderOfChildren(nodes, rank, bound, n, k))
    decreases rank[n], 0, k
  {
    if k > 0 {
      var c := nodes[n].children[k - 1].1;
      ChildLink(nodes, rank, bound, n, k - 1);
      PostorderOfChildrenPermutes(nodes, rank, bound, n, k - 1);
      PostorderPermutesPreorder(nodes, rank, bound, c);
      assert PostorderOfChildren(nodes, rank, bound, n, k)
        == PostorderOfChildren(nodes, rank, bound, n, k - 1) + Postorder(nodes, rank, bound, c);
      assert PreorderOfChildren(nodes, rank, bound, n, k)
        == PreorderOfChildren(nodes, rank, bound, n, k - 1) + Preorder(nodes, rank, bound, c);
    }
  }

  /** A frame whose two children X then Y are leaves: dispatch reaches frame, X, Y; rendering paints X, Y, frame. */
  lemma TwoLeafChildrenOrder(nodes: seq<Region>, rank: seq<nat>, bound: nat, p: nat, x: nat, y: nat)
    requires Ranked(nodes, rank, bound) && p < |nodes|
    requires |nodes[p].children| == 2 && nodes[p].children[0].1 == x && nodes[p].children[1].1 == y
    requires x < |nodes| && y < |nodes| && !nodes[x].isFrame && !nodes[y].isFrame
    ensures Preorder(nodes, rank, bound, p) == [p, x, y]
    ensures Postorder(nodes, rank, bound, p) == [x, y, p]
  {
    assert LinksOk(nodes, rank, bound, x) && LinksOk(nodes, rank, bound, y);
    assert Preorder(nodes, rank, bound, x) == [x] + PreorderOfChildren(nodes, rank, bound, x, 0);
    assert Preorder(nodes, rank, bound, y) == [y] + PreorderOfChildren(nodes, rank, bound, y, 0);
    assert Postorder(nodes, rank, bound, x) == PostorderOfChildren(nodes, rank, bound, x, 0) + [x];
    assert Postorder(nodes, rank, bound, y) == PostorderOfChildren(nodes, rank, bound, y, 0) + [y];
    assert PreorderOfChildren(nodes, rank, bound, p, 1) == PreorderOfChildren(nodes, rank, bound, p, 0) + [x];
    assert PostorderOfChildren(nodes, rank, bound, p, 1) == PostorderOfChildren(nodes, rank, bound, p, 0) + [x];
  }

  // ---------------------------------------------------------------------
  // Adoption

  /** The id `adoptChildUIFrame` gives: the supplied one, else the frame's counter. */
  function AdoptKey(frame: Region, id: Option<ChildKey>): ChildKey {
    if id.Some? then id.value else Num(frame.currentChildId)
  }

  /**
   * The arena after `frame.adoptChildUIFrame(x, y, child, id)`: the child
   * takes the id, the parent and the origin; the frame maps the id to the
   * child and advances its counter only when it generated the id.
   */
  function Adopted(nodes: seq<Region>, frame: nat, x: real, y: real, child: nat, id: Option<ChildKey>): (r: seq<Region>)
    requires frame < |nodes| && child < |nodes| && frame != child
    ensures |r| == |nodes|
    ensures r[child] == nodes[child].(id := AdoptKey(nodes[frame], id), parent := Some(frame), originX := x, originY := y)
    ensures r[frame].children == MapSet(nodes[frame].children, AdoptKey(nodes[frame], id), child)
    ensures MapGet(r[frame].children, AdoptKey(nodes[frame], id)) == Some(child)
    ensures r[frame].currentChildId == nodes[frame].currentChildId + (if id.None? then 1 else 0)
    ensures r[frame] == nodes[frame].(children := r[frame].children, currentChildId := r[frame].currentChildId)
    ensures forall k :: 0 <= k < |nodes| && k != frame && k != child ==> r[k] == nodes[k]
  {
    var key := AdoptKey(nodes[frame], id);
    var counter := if id.Some? then nodes[frame].currentChildId else nodes[frame].currentChildId + 1;
    MapSetGet(nodes[frame].children, key, child, key);
    var withChild := nodes[child := nodes[child].(id := key, parent := Some(frame), originX := x, originY := y)];
    withChild[frame := withChild[frame].(currentChildId := counter, children := MapSet(withChild[frame].children, key, child))]
  }

  /** Ranks after adoption: every region outside the child's tree moves above the child. */
  ghost function Rerank(nodes: seq<Region>, rank: seq<nat>, bound: nat, child: nat): (r: seq<nat>)
    requires Ranked(nodes, rank, bound) && child < |nodes|
    ensures |r| == |rank|
  {
    seq(|rank|, i requires 0 <= i < |rank| =>
      if TopOf(nodes, rank, bound, i) == child then rank[i] else rank[i] + rank[child] + 1)
  }

  /** One step up the parent chain does not change the top. */
  lemma TopOfStep(nodes: seq<Region>, rank: seq<nat>, bound: nat, n: nat)
    requires Ranked(nodes, rank, bound) && n < |nodes| && nodes[n].parent.Some? && nodes[n].parent.value < |nodes|
    ensures TopOf(nodes, rank, bound, n) == TopOf(nodes, rank, bound, nodes[n].parent.value)
  {
  }

  /** After adoption region `n`'s parent, if any, is a frame that outranks it under the new ranks. */
  lemma AdoptedParentLink(nodes: seq<Region>, rank: seq<nat>, bound: nat, frame: nat, x: real, y: real, child: nat, id: Option<ChildKey>, n: nat)
    requires Ranked(nodes, rank, bound) && frame < |nodes| && child < |nodes| && n < |nodes|
    requires nodes[frame].isFrame && nodes[child].parent.None?
    requires TopOf(nodes, rank, bound, frame) != child
    ensures var r := Adopted(nodes, frame, x, y, child, id);
      var rank' := Rerank(nodes, rank, bound, child);
      r[n].parent.Some? ==>
        r[n].parent.value < |r| && r[r[n].parent.value].isFrame && rank'[n] < rank'[r[n].parent.value]
  {
    var r := Adopted(nodes, frame, x, y, child, id);
    var rank' := Rerank(nodes, rank, bound, child);
    if r[n].parent.Some? {
      if n == child {
        assert TopOf(nodes, rank, bound, child) == child;
        assert rank'[child] == rank[child];
        assert rank'[frame] == rank[frame] + rank[child] + 1;
      } else {
        ParentLink(nodes, rank, bound, n);
        TopOfStep(nodes, rank, bound, n);
      }
    }
  }

  /** After adoption every child region `n` lists names `n` as its parent. */
  lemma AdoptedChildLinks(nodes: seq<Region>, rank: seq<nat>, bound: nat, frame: nat, x: real, y: real, child: nat, id: Option<ChildKey>, n: nat)
    requires Ranked(nodes, rank, bound) && frame < |nodes| && child < |nodes| && n < |nodes| && frame != child
    requires nodes[child].parent.None?
    ensures var r := Adopted(nodes, frame, x, y, child, id);
      forall j :: 0 <= j < |r[n].children| ==> r[n].children[j].1 < |r| && r[r[n].children[j].1].parent == Some(n)
  {
    var r := Adopted(nodes, frame, x, y, child, id);
    forall j | 0 <= j < |r[n].children|
      ensures r[n].children[j].1 < |r| && r[r[n].children[j].1].parent == Some(n)
    {
      if n == frame {
        var e := r[n].children[j];
        assert e in r[n].children;
        if e != (AdoptKey(nodes[frame], id), child) {
          var i :| 0 <= i < |nodes[n].children| && nodes[n].children[i] == e;
          ChildLink(nodes, rank, bound, n, i);
        }
      } else {
        ChildLink(nodes, rank, bound, n, j);
      }
    }
  }

  /** Region `n`'s links after adoption, under the new ranks and twice the bound. */
  lemma AdoptedLinks(nodes: seq<Region>, rank: seq<nat>, bound: nat, frame: nat, x: real, y: real, child: nat, id: Option<ChildKey>, n: nat)
    requires Ranked(nodes, rank, bound) && frame < |nodes| && child < |nodes| && n < |nodes|
    requires nodes[frame].isFrame && nodes[child].parent.None?
    requires TopOf(nodes, rank, bound, frame) != child
    ensures LinksOk(Adopted(nodes, frame, x, y, child, id), Rerank(nodes, rank, bound, child), 2 * bound, n)
  {
    var rank' := Rerank(nodes, rank, bound, child);
    assert LinksOk(nodes, rank, bound, n);
    assert LinksOk(nodes, rank, bound, child);
    assert rank'[n] <= rank[n] + rank[child] + 1;
    AdoptedParentLink(nodes, rank, bound, frame, x, y, child, id, n);
    AdoptedChildLinks(nodes, rank, bound, frame, x, y, child, id, n);
  }

  /** Adopting a detached region that is not an ancestor of the frame keeps the arena a forest. */
  lemma AdoptKeepsRanked(nodes: seq<Region>, rank: seq<nat>, bound: nat, frame: nat, x: real, y: real, child: nat, id: Option<ChildKey>)
    requires Ranked(nodes, rank, bound) && frame < |nodes| && child < |nodes|
    requires nodes[frame].isFrame && nodes[child].parent.None?
    requires TopOf(nodes, rank, bound, frame) != child
    ensures Ranked(Adopted(nodes, frame, x, y, child, id), Rerank(nodes, rank, bound, child), 2 * bound)
  {
    forall n | 0 <= n < |nodes|
      ensures LinksOk(Adopted(nodes, frame, x, y, child, id), Rerank(nodes, rank, bound, child), 2 * bound, n)
    {
      AdoptedLinks(nodes, rank, bound, frame, x, y, child, id, n);
    }
  }

  /** Adding a detached region keeps the arena a forest. */
  lemma AppendKeepsRanked(nodes: seq<Region>, rank: seq<nat>, bound: nat, width: real, height: real, id: ChildKey, isFrame: bool)
    requires Ranked(nodes, rank, bound) && bound > 0
    ensures Ranked(nodes + [Detached(width, height, id, isFrame)], rank + [0], bound)
  {
    var nodes' := nodes + [Detached(width, height, id, isFrame)];
    forall n | 0 <= n < |nodes'|
      ensures LinksOk(nodes', rank + [0], bound, n)
    {
      if n < |nodes| {
        assert LinksOk(nodes, rank, bound, n);
      }
    }
  }
}
