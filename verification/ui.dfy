/**
 * The UI framework of src/js/ui/UI.js: `UIElement`, `UIFrame` and
 * `RootUIFrame` as one arena of regions (see RegionTree). Region 0 is the
 * root frame; it forwards bubbled events to the coordinator and keeps the
 * render cache keyed by the model's state hash.
 */
module Ui {
  import opened Wrappers
  import opened RegionTree
  import Model

  /** The root frame's index in the arena. */
  const Root: nat := 0

  /** Which handler list: `handledInputs` or `handledEvents`. */
  datatype Channel = Inputs | Events

  /** A region's own `_handledInputs` and `_handledEvents`. */
  datatype Kinds = Kinds(inputs: seq<string>, events: seq<string>)

  function Own(k: Kinds, ch: Channel): seq<string> {
    if ch == Inputs then k.inputs else k.events
  }

  /** What a canvas shows: nothing yet, or the regions painted in order for one model state. */
  datatype Surface = Blank | Painted(regions: seq<nat>, fingerprint: Model.StateHash)

  /** The root's render receipt and its visible and shadow canvases. */
  datatype CacheState = CacheState(hash: Option<Model.StateHash>, primary: Surface, shadow: Surface)

  /** Before the first render: no receipt, both canvases blank. */
  const InitialCache := CacheState(None, Blank, Blank)

  // ---------------------------------------------------------------------
  // RootUIFrame.assignLayer

  /** The canvas stacking order for a layer type; anything unknown is a main layer. */
  function AssignLayer(layerType: string): (z: int)
    ensures 1 <= z <= 4
    ensures layerType !in {"background", "ui", "dialoge"} ==> z == 2
  {
    match layerType
    case "background" => 1
    case "main" => 2
    case "ui" => 3
    case "dialoge" => 4
    case _ => 2
  }

  /** Background lies under main, main under ui, ui under dialogs. */
  lemma LayersStack()
    ensures AssignLayer("background") < AssignLayer("main") < AssignLayer("ui") < AssignLayer("dialoge")
    ensures AssignLayer("") == AssignLayer("main")
  {
  }

  // ---------------------------------------------------------------------
  // Array.from(new Set(...))

  predicate NoDup(s: seq<string>) {
    forall i, j :: 0 <= i < j < |s| ==> s[i] != s[j]
  }

  /** The distinct entries of `s`, each at its first occurrence, in order. */
  function Dedup(s: seq<string>): seq<string> {
    if s == [] then []
    else
      var prefix := Dedup(s[..|s| - 1]);
      if s[|s| - 1] in prefix then prefix else prefix + [s[|s| - 1]]
  }

  /** Deduplication drops repeats and nothing else. */
  lemma {:induction false} DedupFacts(s: seq<string>)
    ensures NoDup(Dedup(s))
    ensures forall x :: x in Dedup(s) <==> x in s
  {
    if s != [] {
      var init := s[..|s| - 1];
      DedupFacts(init);
      assert s == init + [s[|s| - 1]];
    }
  }

  /** A list without repeats passes through unchanged, so deduplicating twice is deduplicating once. */
  lemma {:induction false} DedupKeepsDistinct(s: seq<string>)
    requires NoDup(s)
    ensures Dedup(s) == s
  {
    if s != [] {
      var init := s[..|s| - 1];
      assert NoDup(init);
      DedupKeepsDistinct(init);
      assert s[|s| - 1] !in init;
      assert init + [s[|s| - 1]] == s;
    }
  }

  // ---------------------------------------------------------------------
  // handledInputs / handledEvents

  /**
   * The kinds a subtree handles: the region's own, then each child's, in
   * child order, without repeats. A leaf child contributes its own kinds.
   */
  ghost function HandledKinds(nodes: seq<Region>, kinds: seq<Kinds>, rank: seq<nat>, bound: nat, n: nat, ch: Channel): seq<string>
    requires Ranked(nodes, rank, bound) && |kinds| == |nodes| && n < |nodes|
    decreases rank[n], 1
  {
    Dedup(Own(kinds[n], ch) + ChildKinds(nodes, kinds, rank, bound, n, |nodes[n].children|, ch))
  }

  ghost function ChildKinds(nodes: seq<Region>, kinds: seq<Kinds>, rank: seq<nat>, bound: nat, n: nat, k: nat, ch: Channel): seq<string>
    requires Ranked(nodes, rank, bound) && |kinds| == |nodes| && n < |nodes| && k <= |nodes[n].children|
    decreases rank[n], 0, k
  {
    if k == 0 then []
    else
      ChildLink(nodes, rank, bound, n, k - 1);
      ChildKinds(nodes, kinds, rank, bound, n, k - 1, ch)
         + HandledKinds(nodes, kinds, rank, bound, nodes[n].children[k - 1].1, ch)
  }

  /** Some region of the list is a region and is not a frame. */
  ghost predicate AllFrames(nodes: seq<Region>, ms: seq<nat>) {
    forall m :: m in ms ==> m < |nodes| && nodes[m].isFrame
  }

  /**
   * The getters as written: a frame asks each child for the getter, which
   * a plain element does not have, so spreading its `undefined` throws
   * (None) as soon as the subtree holds a leaf.
   */
  ghost function HandledKindsAsWritten(nodes: seq<Region>, kinds: seq<Kinds>, rank: seq<nat>, bound: nat, n: nat, ch: Channel): Option<seq<string>>
    requires Ranked(nodes, rank, bound) && |kinds| == |nodes| && n < |nodes| && nodes[n].isFrame
    decreases rank[n], 1
  {
    match ChildKindsAsWritten(nodes, kinds, rank, bound, n, |nodes[n].children|, ch)
    case None => None
    case Some(cs) => Some(Dedup(Own(kinds[n], ch) + cs))
  }

  ghost function ChildKindsAsWritten(nodes: seq<Region>, kinds: seq<Kinds>, rank: seq<nat>, bound: nat, n: nat, k: nat, ch: Channel): Option<seq<string>>
    requires Ranked(nodes, rank, bound) && |kinds| == |nodes| && n < |nodes| && k <= |nodes[n].children|
    decreases rank[n], 0, k
  {
    if k == 0 then Some([])
    else
      ChildLink(nodes, rank, bound, n, k - 1);
      var c := nodes[n].children[k - 1].1;
      match ChildKindsAsWritten(nodes, kinds, rank, bound, n, k - 1, ch)
      case None => None
      case Some(before) =>
        if !nodes[c].isFrame then None
        else
          match HandledKindsAsWritten(nodes, kinds, rank, bound, c, ch)
          case None => None
          case Some(mine) => Some(before + mine)
  }

  lemma AllFramesAppend(nodes: seq<Region>, a: seq<nat>, b: seq<nat>)
    ensures AllFrames(nodes, a + b) <==> AllFrames(nodes, a) && AllFrames(nodes, b)
  {
    forall m | m in a
      ensures m in a + b
    {
    }
    forall m | m in b
      ensures m in a + b
    {
    }
    forall m | m in a + b
      ensures m in a || m in b
    {
    }
  }

  /** The getters as written agree with HandledKinds exactly on subtrees made only of frames, and throw otherwise. */
  lemma {:induction false} AsWrittenFailsOnLeaves(nodes: seq<Region>, kinds: seq<Kinds>, rank: seq<nat>, bound: nat, n: nat, ch: Channel)
    requires Ranked(nodes, rank, bound) && |kinds| == |nodes| && n < |nodes| && nodes[n].isFrame
    ensures HandledKindsAsWritten(nodes, kinds, rank, bound, n, ch)
      == if AllFrames(nodes, Preorder(nodes, rank, bound, n)) then Some(HandledKinds(nodes, kinds, rank, bound, n, ch)) else None
    decreases rank[n], 1
  {
    var k := |nodes[n].children|;
    var below := PreorderOfChildren(nodes, rank, bound, n, k);
    ChildrenAsWrittenFailOnLeaves(nodes, kinds, rank, bound, n, k, ch);
    assert Preorder(nodes, rank, bound, n) == [n] + below;
    assert AllFrames(nodes, [n]);
    AllFramesAppend(nodes, [n], below);
  }

  lemma {:induction false} ChildrenAsWrittenFailOnLeaves(nodes: seq<Region>, kinds: seq<Kinds>, rank: seq<nat>, bound: nat, n: nat, k: nat, ch: Channel)
    requires Ranked(nodes, rank, bound) && |kinds| == |nodes| && n < |nodes| && k <= |nodes[n].children|
    ensures ChildKindsAsWritten(nodes, kinds, rank, bound, n, k, ch)
      == if AllFrames(nodes, PreorderOfChildren(nodes, rank, bound, n, k)) then Some(ChildKinds(nodes, kinds, rank, bound, n, k, ch)) else None
    decreases rank[n], 0, k
  {
    if k > 0 {
      var c := nodes[n].children[k - 1].1;
      ChildLink(nodes, rank, bound, n, k - 1);
      ChildrenAsWrittenFailOnLeaves(nodes, kinds, rank, bound, n, k - 1, ch);
      var before := PreorderOfChildren(nodes, rank, bound, n, k - 1);
      var sub := Preorder(nodes, rank, bound, c);
      assert PreorderOfChildren(nodes, rank, bound, n, k) == before + sub;
      assert sub[0] == c;
      AllFramesAppend(nodes, before, sub);
      if nodes[c].isFrame {
        AsWrittenFailsOnLeaves(nodes, kinds, rank, bound, c, ch);
      }
    }
  }

  /** Every region handles `render` itself, so every subtree reports it among its events. */
  lemma RenderAlwaysHandled(nodes: seq<Region>, kinds: seq<Kinds>, rank: seq<nat>, bound: nat, n: nat)
    requires Ranked(nodes, rank, bound) && |kinds| == |nodes| && n < |nodes|
    requires "render" in kinds[n].events
    ensures "render" in HandledKinds(nodes, kinds, rank, bound, n, Events)
  {
    var all := Own(kinds[n], Events) + ChildKinds(nodes, kinds, rank, bound, n, |nodes[n].children|, Events);
    assert "render" in all;
    DedupFacts(all);
  }

  /** The reported kinds never repeat. */
  lemma HandledKindsDistinct(nodes: seq<Region>, kinds: seq<Kinds>, rank: seq<nat>, bound: nat, n: nat, ch: Channel)
    requires Ranked(nodes, rank, bound) && |kinds| == |nodes| && n < |nodes|
    ensures NoDup(HandledKinds(nodes, kinds, rank, bound, n, ch))
  {
    DedupFacts(Own(kinds[n], ch) + ChildKinds(nodes, kinds, rank, bound, n, |nodes[n].children|, ch));
  }

  /** A frame with a single element child that handles "click": the getter throws, though the subtree handles "click". */
  lemma LeafChildBreaksGetter()
    ensures var nodes := [Region(0.0, 0.0, 10.0, 10.0, Str("anonymous"), None, true, [(Num(0), 1)], 1),
                          Region(0.0, 0.0, 5.0, 5.0, Num(0), Some(0), false, [], 0)];
            var kinds := [Kinds([], ["render"]), Kinds(["click"], ["render"])];
            Ranked(nodes, [1, 0], 2)
            && HandledKindsAsWritten(nodes, kinds, [1, 0], 2, 0, Inputs) == None
            && HandledKinds(nodes, kinds, [1, 0], 2, 0, Inputs) == ["click"]
  {
    var nodes := [Region(0.0, 0.0, 10.0, 10.0, Str("anonymous"), None, true, [(Num(0), 1)], 1),
                  Region(0.0, 0.0, 5.0, 5.0, Num(0), Some(0), false, [], 0)];
    var kinds := [Kinds([], ["render"]), Kinds(["click"], ["render"])];
    assert Ranked(nodes, [1, 0], 2);
    assert ChildKindsAsWritten(nodes, kinds, [1, 0], 2, 0, 0, Inputs) == Some([]);
    assert ChildKinds(nodes, kinds, [1, 0], 2, 1, 0, Inputs) == [];
    assert HandledKinds(nodes, kinds, [1, 0], 2, 1, Inputs) == Dedup(["click"]);
    assert Dedup(["click"]) == ["click"] by { DedupKeepsDistinct(["click"]); }
    assert ChildKinds(nodes, kinds, [1, 0], 2, 0, 1, Inputs) == ["click"];
  }

  /** The kinds the listed regions name themselves, one list after another. */
  ghost function OwnKindsOf(kinds: seq<Kinds>, ms: seq<nat>, ch: Channel): seq<string> {
    if ms == [] then []
    else
      var last := ms[|ms| - 1];
      OwnKindsOf(kinds, ms[..|ms| - 1], ch) + (if last < |kinds| then Own(kinds[last], ch) else [])
  }

  lemma {:induction false} OwnKindsOfAppend(kinds: seq<Kinds>, a: seq<nat>, b: seq<nat>, ch: Channel)
    ensures OwnKindsOf(kinds, a + b, ch) == OwnKindsOf(kinds, a, ch) + OwnKindsOf(kinds, b, ch)
    decreases |b|
  {
    if b == [] {
      assert a + b == a;
    } else {
      var b' := b[..|b| - 1];
      OwnKindsOfAppend(kinds, a, b', ch);
      assert (a + b)[..|a + b| - 1] == a + b';
      assert (a + b)[|a + b| - 1] == b[|b| - 1];
    }
  }

  /** A subtree handles a kind exactly when one of its regions lists that kind itself. */
  lemma {:induction false} HandledKindsCollectsSubtree(nodes: seq<Region>, kinds: seq<Kinds>, rank: seq<nat>, bound: nat, n: nat, ch: Channel, x: string)
    requires Ranked(nodes, rank, bound) && |kinds| == |nodes| && n < |nodes|
    ensures x in HandledKinds(nodes, kinds, rank, bound, n, ch) <==> x in OwnKindsOf(kinds, Preorder(nodes, rank, bound, n), ch)
    decreases rank[n], 1
  {
    var k := |nodes[n].children|;
    var own, rest := Own(kinds[n], ch), ChildKinds(nodes, kinds, rank, bound, n, k, ch);
    var below := PreorderOfChildren(nodes, rank, bound, n, k);
    ChildKindsCollectSubtrees(nodes, kinds, rank, bound, n, k, ch, x);
    DedupFacts(own + rest);
    assert Preorder(nodes, rank, bound, n) == [n] + below;
    OwnKindsOfAppend(kinds, [n], below, ch);
    assert [n][..0] == [];
  }

  lemma {:induction false} ChildKindsCollectSubtrees(nodes: seq<Region>, kinds: seq<Kinds>, rank: seq<nat>, bound: nat, n: nat, k: nat, ch: Channel, x: string)
    requires Ranked(nodes, rank, bound) && |kinds| == |nodes| && n < |nodes| && k <= |nodes[n].children|
    ensures x in ChildKinds(nodes, kinds, rank, bound, n, k, ch) <==> x in OwnKindsOf(kinds, PreorderOfChildren(nodes, rank, bound, n, k), ch)
    decreases rank[n], 0, k
  {
    if k > 0 {
      var c := nodes[n].children[k - 1].1;
      ChildLink(nodes, rank, bound, n, k - 1);
      ChildKindsCollectSubtrees(nodes, kinds, rank, bound, n, k - 1, ch, x);
      HandledKindsCollectsSubtree(nodes, kinds, rank, bound, c, ch, x);
      var before, sub := PreorderOfChildren(nodes, rank, bound, n, k - 1), Preorder(nodes, rank, bound, c);
      assert PreorderOfChildren(nodes, rank, bound, n, k) == before + sub;
      OwnKindsOfAppend(kinds, before, sub, ch);
    }
  }

  // ---------------------------------------------------------------------
  // The render cache of RootUIFrame.render

  /**
   * One root render for state `hash`, `full` being what a redraw paints:
   * with a matching receipt the shadow canvas is copied to the visible one;
   * otherwise the tree is redrawn, the receipt taken and the shadow saved.
   */
  function CacheStep(s: CacheState, hash: Model.StateHash, full: seq<nat>): CacheState {
    if s.hash == Some(hash) then s.(primary := s.shadow)
    else CacheState(Some(hash), Painted(full, hash), Painted(full, hash))
  }

  /** Whether a render of state `hash` from cache state `s` redraws the tree. */
  predicate Redraws(s: CacheState, hash: Model.StateHash) {
    s.hash != Some(hash)
  }

  /** After any render the receipt is the rendered state and both canvases agree. */
  lemma CacheStepSettles(s: CacheState, hash: Model.StateHash, full: seq<nat>)
    ensures CacheStep(s, hash, full).hash == Some(hash)
    ensures CacheStep(s, hash, full).primary == CacheStep(s, hash, full).shadow
  {
  }

  /** The first render of all always redraws, since no receipt exists yet. */
  lemma FirstRenderRedraws(hash: Model.StateHash, full: seq<nat>)
    ensures CacheStep(InitialCache, hash, full) == CacheState(Some(hash), Painted(full, hash), Painted(full, hash))
  {
  }

  /** The first time a state is rendered, rendering it again shows exactly what a redraw from scratch shows. */
  lemma CachedRenderMatchesRedraw(s: CacheState, hash: Model.StateHash, full: seq<nat>)
    requires Redraws(s, hash)
    ensures !Redraws(CacheStep(s, hash, full), hash)
    ensures CacheStep(CacheStep(s, hash, full), hash, full).primary == CacheStep(InitialCache, hash, full).primary
  {
  }

  /** The receipt is the model's hash alone: a repeated state shows the previous picture, whatever the tree would paint now. */
  lemma CacheIgnoresTree(s: CacheState, hash: Model.StateHash, full: seq<nat>, now: seq<nat>)
    ensures CacheStep(CacheStep(s, hash, full), hash, now).primary == CacheStep(s, hash, full).primary
  {
  }

  /** States h1, h1, h2 with h1 != h2: the first and third render redraw, the second repeats the first. */
  lemma RenderSequence(h1: Model.StateHash, h2: Model.StateHash, full: seq<nat>)
    requires h1 != h2
    ensures var s1 := CacheStep(InitialCache, h1, full);
      var s2 := CacheStep(s1, h1, full);
      var s3 := CacheStep(s2, h2, full);
      Redraws(InitialCache, h1) && !Redraws(s1, h1) && Redraws(s2, h2)
      && s2.primary == s1.primary && s3.primary == Painted(full, h2)
  {
  }

  // ---------------------------------------------------------------------
  // Render notices

  /** The `render` events the coordinator receives when the listed regions render in order. */
  ghost function RenderNotices(nodes: seq<Region>, rank: seq<nat>, bound: nat, ms: seq<nat>): seq<Event>
    requires Ranked(nodes, rank, bound)
  {
    if ms == [] then []
    else
      var last := ms[|ms| - 1];
      RenderNotices(nodes, rank, bound, ms[..|ms| - 1]) + Notice(nodes, rank, bound, last)
  }

  /** The event region `m` gets through to the coordinator when it renders, if any. */
  ghost function Notice(nodes: seq<Region>, rank: seq<nat>, bound: nat, m: nat): seq<Event>
    requires Ranked(nodes, rank, bound)
  {
    if m < |nodes| && ReachesRoot(nodes, rank, bound, m) then [RenderEvent(nodes[m])] else []
  }

  lemma {:induction false} RenderNoticesAppend(nodes: seq<Region>, rank: seq<nat>, bound: nat, a: seq<nat>, b: seq<nat>)
    requires Ranked(nodes, rank, bound)
    ensures RenderNotices(nodes, rank, bound, a + b) == RenderNotices(nodes, rank, bound, a) + RenderNotices(nodes, rank, bound, b)
    decreases |b|
  {
    if b != [] {
      var b', last := b[..|b| - 1], b[|b| - 1];
      RenderNoticesAppend(nodes, rank, bound, a, b');
      assert (a + b)[..|a + b| - 1] == a + b';
      assert (a + b)[|a + b| - 1] == last;
      calc {
        RenderNotices(nodes, rank, bound, a + b);
        RenderNotices(nodes, rank, bound, a + b') + Notice(nodes, rank, bound, last);
        RenderNotices(nodes, rank, bound, a) + RenderNotices(nodes, rank, bound, b') + Notice(nodes, rank, bound, last);
      }
    } else {
      assert a + b == a;
    }
  }

  /** Everything dispatch reaches from a parentless root lies on a path back to the root. */
  lemma RootTreeReachesRoot(nodes: seq<Region>, rank: seq<nat>, bound: nat)
    requires Ranked(nodes, rank, bound) && 0 < |nodes| && nodes[Root].parent.None?
    ensures forall m :: m in Preorder(nodes, rank, bound, Root) ==> m < |nodes| && ReachesRoot(nodes, rank, bound, m)
  {
    PreorderStaysInTree(nodes, rank, bound, Root);
    forall m | m in Preorder(nodes, rank, bound, Root)
      ensures m < |nodes| && ReachesRoot(nodes, rank, bound, m)
    {
      ReachesRootIffInRootTree(nodes, rank, bound, m);
    }
  }

  lemma RenderNoticeOfOne(nodes: seq<Region>, rank: seq<nat>, bound: nat, n: nat)
    requires Ranked(nodes, rank, bound) && n < |nodes|
    ensures RenderNotices(nodes, rank, bound, [n]) == Notice(nodes, rank, bound, n)
  {
    assert [n][..0] == [];
  }

  // ---------------------------------------------------------------------
  // The arena

  /**
   * A well-formed arena: a forest whose region 0 is a parentless frame (the
   * root), with every region handling `render`.
   */
  ghost predicate Arena(nodes: seq<Region>, kinds: seq<Kinds>, rank: seq<nat>, bound: nat) {
    && Ranked(nodes, rank, bound)
    && |kinds| == |nodes| && 0 < |nodes|
    && nodes[Root].isFrame && nodes[Root].parent.None?
    && (forall n :: 0 <= n < |kinds| ==> "render" in kinds[n].events)
  }

  /** Adoption keeps the arena well formed, provided the root itself is not adopted. */
  lemma AdoptKeepsArena(nodes: seq<Region>, kinds: seq<Kinds>, rank: seq<nat>, bound: nat, frame: nat, x: real, y: real, child: nat, id: Option<ChildKey>)
    requires Arena(nodes, kinds, rank, bound) && frame < |nodes| && child < |nodes| && child != Root
    requires nodes[frame].isFrame && nodes[child].parent.None?
    requires TopOf(nodes, rank, bound, frame) != child
    ensures Arena(Adopted(nodes, frame, x, y, child, id), kinds, Rerank(nodes, rank, bound, child), 2 * bound)
  {
    assert TopOf(nodes, rank, bound, child) == child;
    AdoptKeepsRanked(nodes, rank, bound, frame, x, y, child, id);
  }

  class UiTree {
    var nodes: seq<Region>
    var kinds: seq<Kinds>
    ghost var rank: seq<nat>
    ghost var bound: nat
    /** The root's `_modelStateHash` receipt. */
    var modelStateHash: Option<Model.StateHash>
    /** The visible canvas and the shadow canvas. */
    var primary: Surface
    var shadow: Surface

    ghost predicate Valid()
      reads this
    {
      Arena(nodes, kinds, rank, bound)
    }

    function Cache(): CacheState
      reads this
    {
      CacheState(modelStateHash, primary, shadow)
    }

    /** The root frame of the given size, alone in the arena, never rendered. */
    constructor(width: real, height: real)
      ensures Valid()
      ensures nodes == [Detached(width, height, Str("anonymous"), true)]
      ensures kinds == [Kinds([], ["render"])]
      ensures Cache() == InitialCache
    {
      nodes := [Detached(width, height, Str("anonymous"), true)];
      kinds := [Kinds([], ["render"])];
      rank := [0];
      bound := 1;
      modelStateHash := None;
      primary := Blank;
      shadow := Blank;
    }

    /** Constructs a detached element or frame; it handles `render` and whatever kinds its class adds. */
    method NewRegion(width: real, height: real, isFrame: bool, extraInputs: seq<string>, extraEvents: seq<string>) returns (n: nat)
      requires Valid()
      modifies this`nodes, this`kinds, this`rank
      ensures Valid()
      ensures n == old(|nodes|)
      ensures nodes == old(nodes) + [Detached(width, height, Str("anonymous"), isFrame)]
      ensures kinds == old(kinds) + [Kinds(extraInputs, ["render"] + extraEvents)]
    {
      assert LinksOk(nodes, rank, bound, Root);
      AppendKeepsRanked(nodes, rank, bound, width, height, Str("anonymous"), isFrame);
      n := |nodes|;
      nodes := nodes + [Detached(width, height, Str("anonymous"), isFrame)];
      kinds := kinds + [Kinds(extraInputs, ["render"] + extraEvents)];
      rank := rank + [0];
    }

    /** `_generateChildId`: hands out the frame's counter and advances it. */
    method GenerateChildId(frame: nat) returns (key: ChildKey)
      requires frame < |nodes|
      modifies this`nodes
      ensures key == Num(old(nodes[frame].currentChildId))
      ensures nodes == old(nodes)[frame := old(nodes[frame]).(currentChildId := old(nodes[frame].currentChildId) + 1)]
    {
      key := Num(nodes[frame].currentChildId);
      nodes := nodes[frame := nodes[frame].(currentChildId := nodes[frame].currentChildId + 1)];
    }

    /** `acceptParentUIFrame`: the region records its id, parent and origin. */
    method AcceptParentUIFrame(child: nat, x: real, y: real, parent: nat, id: ChildKey)
      requires child < |nodes|
      modifies this`nodes
      ensures nodes == old(nodes)[child := old(nodes[child]).(id := id, parent := Some(parent), originX := x, originY := y)]
    {
      nodes := nodes[child := nodes[child].(id := id, parent := Some(parent), originX := x, originY := y)];
    }

    /**
     * `adoptChildUIFrame`: places a detached region that is not above the
     * frame at (x, y) in the frame, under the given id or a generated one.
     */
    method AdoptChild(frame: nat, x: real, y: real, child: nat, id: Option<ChildKey>)
      requires Valid() && frame < |nodes| && child < |nodes| && child != Root
      requires nodes[frame].isFrame && nodes[child].parent.None?
      requires TopOf(nodes, rank, bound, frame) != child
      modifies this`nodes, this`rank, this`bound
      ensures Valid()
      ensures nodes == Adopted(old(nodes), frame, x, y, child, id)
    {
      assert TopOf(nodes, rank, bound, child) == child;
      AdoptKeepsArena(nodes, kinds, rank, bound, frame, x, y, child, id);
      rank := Rerank(nodes, rank, bound, child);
      bound := 2 * bound;
      LinkChild(frame, x, y, child, id);
    }

    /** The steps of `adoptChildUIFrame`: choose the id, let the child accept the frame, file it in the child map. */
    method LinkChild(frame: nat, x: real, y: real, child: nat, id: Option<ChildKey>)
      requires frame < |nodes| && child < |nodes| && frame != child
      modifies this`nodes
      ensures nodes == Adopted(old(nodes), frame, x, y, child, id)
    {
      var key: ChildKey;
      if id.Some? {
        key := id.value;
      } else {
        key := GenerateChildId(frame);
      }
      AcceptParentUIFrame(child, x, y, frame, key);
      nodes := nodes[frame := nodes[frame].(children := MapSet(nodes[frame].children, key, child))];
    }

    /** `handleInput` / `handleEvent`: the regions that receive a signal passed to `n`, in order. */
    method Dispatch(n: nat) returns (delivered: seq<nat>)
      requires Valid() && n < |nodes|
      ensures delivered == Preorder(nodes, rank, bound, n)
      ensures n == Root ==> forall m :: m in delivered ==> m < |nodes| && ReachesRoot(nodes, rank, bound, m)
      decreases rank[n], 1
    {
      delivered := [n];
      var i := 0;
      while i < |nodes[n].children|
        invariant 0 <= i <= |nodes[n].children|
        invariant delivered == [n] + PreorderOfChildren(nodes, rank, bound, n, i)
      {
        ChildLink(nodes, rank, bound, n, i);
        var sub := Dispatch(nodes[n].children[i].1);
        delivered := delivered + sub;
        i := i + 1;
      }
      if n == Root {
        RootTreeReachesRoot(nodes, rank, bound);
      }
    }

    /** `newEvent` on frame `n`: the event climbs until the root hands it to the coordinator, or the chain ends. */
    method NewEvent(n: nat, e: Event) returns (delivered: Option<Event>)
      requires Valid() && n < |nodes| && nodes[n].isFrame
      ensures delivered == if ReachesRoot(nodes, rank, bound, n) then Some(e) else None
      decreases bound - rank[n]
    {
      if n == Root {
        delivered := Some(e);
      } else if nodes[n].parent.Some? {
        ParentLink(nodes, rank, bound, n);
        delivered := NewEvent(nodes[n].parent.value, e);
      } else {
        delivered := None;
      }
    }

    /**
     * `render` on region `n`: children first, in insertion order, then the
     * region itself, which announces a `render` event to its parent (the
     * root sends its own straight to the coordinator).
     */
    method Render(n: nat) returns (drawn: seq<nat>, sent: seq<Event>)
      requires Valid() && n < |nodes|
      ensures drawn == Postorder(nodes, rank, bound, n)
      ensures sent == RenderNotices(nodes, rank, bound, drawn)
      decreases rank[n], 1
    {
      drawn, sent := [], [];
      var i := 0;
      while i < |nodes[n].children|
        invariant 0 <= i <= |nodes[n].children|
        invariant drawn == PostorderOfChildren(nodes, rank, bound, n, i)
        invariant sent == RenderNotices(nodes, rank, bound, drawn)
      {
        ChildLink(nodes, rank, bound, n, i);
        var d, s := Render(nodes[n].children[i].1);
        RenderNoticesAppend(nodes, rank, bound, drawn, d);
        drawn, sent := drawn + d, sent + s;
        i := i + 1;
      }
      var own := Announce(n);
      RenderNoticesAppend(nodes, rank, bound, drawn, [n]);
      RenderNoticeOfOne(nodes, rank, bound, n);
      drawn, sent := drawn + [n], sent + own;
    }

    /**
     * The `render` event region `n` raises after its children have rendered:
     * a child passes it to its parent, the root sends it to the coordinator,
     * a detached region raises none.
     */
    method Announce(n: nat) returns (own: seq<Event>)
      requires Valid() && n < |nodes|
      ensures own == Notice(nodes, rank, bound, n)
    {
      own := [];
      if n == Root {
        own := [RenderEvent(nodes[n])];
      } else if nodes[n].parent.Some? {
        ParentLink(nodes, rank, bound, n);
        var bubbled := NewEvent(nodes[n].parent.value, RenderEvent(nodes[n]));
        if bubbled.Some? {
          own := [bubbled.value];
        }
      }
    }

    /**
     * `RootUIFrame.render` for a model whose state hash is `hash`: a cache
     * hit only copies the shadow canvas; otherwise the whole tree renders.
     */
    method RenderRoot(hash: Model.StateHash) returns (drawn: seq<nat>, sent: seq<Event>)
      requires Valid()
      modifies this`modelStateHash, this`primary, this`shadow
      ensures Cache() == CacheStep(old(Cache()), hash, Postorder(nodes, rank, bound, Root))
      ensures drawn == if old(modelStateHash) == Some(hash) then [] else Postorder(nodes, rank, bound, Root)
      ensures sent == RenderNotices(nodes, rank, bound, drawn)
    {
      if modelStateHash == Some(hash) {
        primary := shadow;
        drawn, sent := [], [];
      } else {
        drawn, sent := Render(Root);
        primary := Painted(drawn, hash);
        modelStateHash := Some(hash);
        shadow := primary;
      }
    }

    /** The corrected `handledInputs` / `handledEvents` getters on region `n`. */
    method HandledKindsOf(n: nat, ch: Channel) returns (r: seq<string>)
      requires Valid() && n < |nodes|
      ensures r == HandledKinds(nodes, kinds, rank, bound, n, ch)
      decreases rank[n], 1
    {
      var children := nodes[n].children;
      var ret := Own(kinds[n], ch);
      var i := 0;
      while i < |children|
        invariant 0 <= i <= |children|
        invariant ret == Own(kinds[n], ch) + ChildKinds(nodes, kinds, rank, bound, n, i, ch)
      {
        ChildLink(nodes, rank, bound, n, i);
        var sub := HandledKindsOf(children[i].1, ch);
        ret := ret + sub;
        i := i + 1;
      }
      r := Dedup(ret);
    }
  }
}
