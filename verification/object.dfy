/** World-object interpolation: two generations of per-slot snapshots with
    a children list per slot, lazy rollover on the first frame after a tick,
    a recursive children-first blend that touches each slot at most once per
    frame, and a restore step after rendering. */
module Objects {
  import opened MathTrig
  import opened Host
  import Roles

  /** Slots per generation (`OBJECT_BUFFER_SIZE`). */
  const Capacity: nat := 2048

  /** Squared-distance caps between generations: 2.5^2 for bipeds, 7.5^2 otherwise. */
  const MaxDist2Biped: real := 6.25
  const MaxDist2Other: real := 56.25

  /** Below this squared movement a slot is not blended at all. */
  const MinMove2: real := 0.0005

  /** Within this squared distance of the camera the progress is clamped again. */
  const NearCamera2: real := 4.0

  /** A device machine whose position wrapped from above 0.9 to below 0.002
      is not interpolated. */
  const DeviceWrapFrom: real := 0.9
  const DeviceWrapTo: real := 0.002

  type SlotIndex = i: nat | i < Capacity

  datatype ObjectType = Biped | Projectile | DeviceMachine | OtherType

  /** What the object table exposes about one live object. `nodes` is the
      node array (absent when the object has none), `modelNodeCount` the
      node count read through the object's tag and model tag (absent when
      either lookup fails), `id` the salt of the table entry. */
  datatype LiveObject = LiveObject(
    id: nat,
    tag: nat,
    kind: ObjectType,
    center: Vec3,
    nodes: Option<seq<Node>>,
    modelNodeCount: Option<nat>,
    parent: Option<SlotIndex>,
    isLocalPlayer: bool,
    devicePosition: real)

  /** The dynamic object table; its length is the table's `current_size`
      and an empty slot is `None`. */
  type ObjectTable = seq<Option<LiveObject>>

  /** One captured object (`InterpolatedObject`). */
  datatype Snapshot = Snapshot(
    interpolate: bool,
    blended: bool,
    children: seq<nat>,
    tag: nat,
    index: nat,
    center: Vec3,
    nodes: seq<Node>,
    devicePosition: real)

  const EmptySnapshot: Snapshot := Snapshot(false, false, [], 0, 0, Origin, [], 0.0)

  type Generation = seq<Snapshot>

  datatype ObjectState = ObjectState(buffers: seq<Generation>, roles: Roles.Pair, tickPassed: bool) {

    predicate Valid() {
      roles.Valid() && |buffers| == 2 && |buffers[0]| == Capacity && |buffers[1]| == Capacity
    }

    function Current(): Generation
      requires Valid()
    {
      buffers[roles.current]
    }

    function Previous(): Generation
      requires Valid()
    {
      buffers[roles.previous]
    }
  }

  const Initial: ObjectState :=
    ObjectState([seq(Capacity, _ => EmptySnapshot), seq(Capacity, _ => EmptySnapshot)], Roles.Initial, false)

  /** Per-frame inputs of the blend: the shared progress, the camera
      position and the library numerics. */
  datatype FrameInput = FrameInput(progress: real, camera: Vec3, trig: Trig)

  function Lookup(t: ObjectTable, i: nat): Option<LiveObject> {
    if i < |t| then t[i] else None
  }

  // ---------------------------------------------------------------------
  // Capture (copy_objects)
  // ---------------------------------------------------------------------

  /** Projectiles have one node; other objects take the count from their model. */
  function NodeCount(o: LiveObject): Option<nat> {
    if o.kind == Projectile then Some(1) else o.modelNodeCount
  }

  function MaxDist2(kind: ObjectType): real {
    if kind == Biped then MaxDist2Biped else MaxDist2Other
  }

  /** The first `n` elements, or all of them when there are fewer. */
  function Take<T(==)>(s: seq<T>, n: nat): (r: seq<T>)
    ensures IsPrefix(r, s)
    ensures |r| == if n <= |s| then n else |s|
  {
    if n <= |s| then s[..n] else s
  }

  /** Capture-time eligibility, stated as one condition: the object is live,
      has nodes and a resolved node count, moved less than its kind's cap
      since the previous generation, and is not a device machine whose
      position wrapped around. */
  predicate CaptureEligible(o: Option<LiveObject>, prev: Snapshot) {
    && o.Some?
    && o.value.nodes.Some?
    && NodeCount(o.value).Some?
    && DistanceSquared(o.value.center, prev.center) < MaxDist2(o.value.kind)
    && !(o.value.kind == DeviceMachine
         && o.value.devicePosition < DeviceWrapTo && prev.devicePosition > DeviceWrapFrom)
  }

  /** Whether the capture loop reaches the parent step for this object. */
  predicate ReachesParentStep(o: Option<LiveObject>) {
    o.Some? && o.value.nodes.Some? && NodeCount(o.value).Some?
  }

  /** The per-slot body of the capture loop, children aside. Fields of an
      object the loop skips keep their stale values. */
  function CaptureSlot(stale: Snapshot, prev: Snapshot, o: Option<LiveObject>): (s: Snapshot)
    ensures !s.blended
    ensures s.interpolate <==> CaptureEligible(o, prev)
    ensures o.None? ==> s == stale.(interpolate := false, blended := false, children := [])
    ensures o.Some? ==> s.index == o.value.id && s.tag == o.value.tag && s.center == o.value.center
    ensures ReachesParentStep(o) ==> s.nodes == Take(o.value.nodes.value, NodeCount(o.value).value)
    ensures o.Some? && !ReachesParentStep(o) ==> s.nodes == stale.nodes
    ensures ReachesParentStep(o) && o.value.kind == DeviceMachine ==> s.devicePosition == o.value.devicePosition
    ensures !(ReachesParentStep(o) && o.value.kind == DeviceMachine) ==> s.devicePosition == stale.devicePosition
  {
    var s := stale.(interpolate := false, blended := false, children := []);
    if o.None? then s
    else
      var obj := o.value;
      var s := s.(index := obj.id, tag := obj.tag, center := obj.center);
      if obj.nodes.None? || NodeCount(obj).None? then s
      else
        var s := s.(nodes := Take(obj.nodes.value, NodeCount(obj).value));
        var near := DistanceSquared(s.center, prev.center) < MaxDist2(obj.kind);
        if obj.kind == DeviceMachine then
          var s := s.(devicePosition := obj.devicePosition);
          s.(interpolate := near && !(s.devicePosition < DeviceWrapTo && prev.devicePosition > DeviceWrapFrom))
        else
          s.(interpolate := near)
  }

  /** The parent recorded for a slot: only objects that reach the parent
      step and have a parent get one; every other slot has none. */
  function ParentOf(o: Option<LiveObject>): Option<SlotIndex> {
    if ReachesParentStep(o) then o.value.parent else None
  }

  function ParentMap(t: ObjectTable): (pm: seq<Option<SlotIndex>>)
    ensures |pm| == Capacity
    ensures forall i :: 0 <= i < Capacity ==>
      (pm[i].Some? <==> ReachesParentStep(Lookup(t, i)) && Lookup(t, i).value.parent.Some?)
    ensures forall i :: 0 <= i < Capacity && pm[i].Some? ==>
      ReachesParentStep(Lookup(t, i)) && pm[i] == Lookup(t, i).value.parent
  {
    seq(Capacity, i requires 0 <= i < Capacity => ParentOf(Lookup(t, i)))
  }

  /** The parent map as the source initialises it: only element 0 is set
      to the null id, every other element is a zero id, which names slot 0. */
  function ParentMapAsWritten(t: ObjectTable): (pm: seq<Option<SlotIndex>>)
    ensures |pm| == Capacity
    ensures pm[0] == ParentMap(t)[0]
    ensures forall i :: 0 < i < Capacity ==> pm[i].Some?
    ensures forall i :: 0 <= i < Capacity && ParentMap(t)[i].Some? ==> pm[i] == ParentMap(t)[i]
    ensures forall i :: 0 <= i < Capacity && pm[i] != ParentMap(t)[i] ==> pm[i] == Some(0)
  {
    seq(Capacity, i requires 0 <= i < Capacity =>
      if ReachesParentStep(Lookup(t, i)) && Lookup(t, i).value.parent.Some? then Lookup(t, i).value.parent
      else if i == 0 then None
      else Some(0))
  }

  /** The slots among the first `n` whose parent is `p`, in ascending order. */
  function ChildrenOf(pm: seq<Option<SlotIndex>>, p: nat, n: nat): (cs: seq<nat>)
    requires n <= |pm|
    ensures forall k: nat :: k in cs <==> (k < n && pm[k].Some? && pm[k].value == p)
    ensures forall a, b :: 0 <= a < b < |cs| ==> cs[a] < cs[b]
  {
    if n == 0 then []
    else
      var earlier := ChildrenOf(pm, p, n - 1);
      assert forall a :: 0 <= a < |earlier| ==> earlier[a] in earlier;
      earlier + (if pm[n - 1].Some? && pm[n - 1].value == p then [n - 1] else [])
  }

  /** The children-building loop after its first `n` iterations: slot `i`
      with a parent is appended to that parent's list. */
  function AppendChildren(pm: seq<Option<SlotIndex>>, n: nat): (lists: seq<seq<nat>>)
    requires |pm| == Capacity && n <= Capacity
    ensures |lists| == Capacity
    ensures forall p :: 0 <= p < Capacity ==> forall k :: k in lists[p] ==> k < n && pm[k].Some? && pm[k].value == p
  {
    if n == 0 then seq(Capacity, _ => [])
    else
      var lists := AppendChildren(pm, n - 1);
      if pm[n - 1].None? then lists
      else
        var p := pm[n - 1].value;
        lists[p := lists[p] + [n - 1]]
  }

  /** The loop builds exactly the ascending list of each slot's children. */
  lemma {:induction false} AppendChildrenIsChildrenOf(pm: seq<Option<SlotIndex>>, n: nat)
    requires |pm| == Capacity && n <= Capacity
    ensures forall p :: 0 <= p < Capacity ==> AppendChildren(pm, n)[p] == ChildrenOf(pm, p, n)
  {
    if n > 0 {
      AppendChildrenIsChildrenOf(pm, n - 1);
    }
  }

  /** A fresh current generation: every slot re-captured with its
      eligibility decided against the previous generation, and the children
      lists rebuilt from the parent map. */
  function CaptureGeneration(cur: Generation, prev: Generation, t: ObjectTable): (g: Generation)
    requires |cur| == Capacity && |prev| == Capacity
    ensures |g| == Capacity
    ensures forall i :: 0 <= i < Capacity ==> !g[i].blended
    ensures forall i :: 0 <= i < Capacity ==> (g[i].interpolate <==> CaptureEligible(Lookup(t, i), prev[i]))
    ensures forall i :: 0 <= i < Capacity ==> g[i].children == ChildrenOf(ParentMap(t), i, Capacity)
    ensures forall i :: 0 <= i < Capacity ==> g[i] == CaptureSlot(cur[i], prev[i], Lookup(t, i)).(children := g[i].children)
  {
    var pm := ParentMap(t);
    var lists := AppendChildren(pm, Capacity);
    AppendChildrenIsChildrenOf(pm, Capacity);
    seq(Capacity, i requires 0 <= i < Capacity => CaptureSlot(cur[i], prev[i], Lookup(t, i)).(children := lists[i]))
  }

  /** Every object that reaches the parent step with a parent is in exactly
      its parent's children list, once. */
  lemma ChildListed(t: ObjectTable, g: Generation, j: SlotIndex, p: SlotIndex)
    requires |g| == Capacity
    requires forall i :: 0 <= i < Capacity ==> g[i].children == ChildrenOf(ParentMap(t), i, Capacity)
    ensures j in g[p].children <==> ParentOf(Lookup(t, j)) == Some(p)
    ensures forall q :: 0 <= q < Capacity && q != p && ParentOf(Lookup(t, j)) == Some(p) ==> j !in g[q].children
    ensures forall a, b :: 0 <= a < b < |g[p].children| ==> g[p].children[a] != g[p].children[b]
  {
    var pm := ParentMap(t);
    assert pm[j] == ParentOf(Lookup(t, j));
  }

  // ---------------------------------------------------------------------
  // Blend (interpolate_object)
  // ---------------------------------------------------------------------

  /** The set of slots not yet blended this frame. */
  function Unflagged(g: Generation): set<nat> {
    set j: nat | j < |g| && !g[j].blended
  }

  /** The per-slot checks `interpolate_object` makes before blending: the
      index is in range, the slot was eligible at capture and is not yet
      blended this frame, the object is live, its tag agrees with both
      generations, the generations agree on the index, and it moved at
      least the micro-movement threshold. */
  predicate Gate(cur: Generation, prev: Generation, t: ObjectTable, i: nat) {
    && i < Capacity && i < |cur| && i < |prev|
    && cur[i].interpolate && !cur[i].blended
    && Lookup(t, i).Some?
    && cur[i].tag == Lookup(t, i).value.tag
    && prev[i].tag == cur[i].tag
    && cur[i].index == prev[i].index
    && DistanceSquared(prev[i].center, cur[i].center) >= MinMove2
  }

  /** The progress, clamped again when the object is near the camera. */
  function ObjectAlpha(progress: real, camera: Vec3, center: Vec3): (a: real)
    ensures 0.0 <= progress <= 1.0 ==> a == progress
    ensures DistanceSquared(camera, center) < NearCamera2 ==> 0.0 <= a <= 1.0
  {
    if DistanceSquared(camera, center) < NearCamera2 then Clamp01(progress) else progress
  }

  /** Remote bipeds and parented bipeds keep their node animation. */
  predicate SkipsNodes(o: LiveObject) {
    o.kind == Biped && (!o.isLocalPlayer || o.parent.Some?)
  }

  /** Node-by-node blend over the current generation's node count, limited
      to nodes both generations and the live array hold. */
  function BlendNodes(live: seq<Node>, prev: seq<Node>, cur: seq<Node>, alpha: real, trig: Trig): (r: seq<Node>)
    ensures |r| == |live|
    ensures forall n :: 0 <= n < |live| && (n >= |cur| || n >= |prev|) ==> r[n] == live[n]
    ensures forall n :: 0 <= n < |live| && n < |cur| && n < |prev| ==> r[n] == BlendNode(prev[n], cur[n], alpha, trig)
  {
    seq(|live|, n requires 0 <= n < |live| =>
      if n < |cur| && n < |prev| then BlendNode(prev[n], cur[n], alpha, trig) else live[n])
  }

  /** The live object after its blend: the center always moves to the blend
      of the two snapshots; nodes are blended unless the object skips them. */
  function BlendLive(o: LiveObject, prev: Snapshot, cur: Snapshot, f: FrameInput): (r: LiveObject)
    ensures r.center == Lerp(prev.center, cur.center, ObjectAlpha(f.progress, f.camera, cur.center))
    ensures r.(center := o.center, nodes := o.nodes) == o
    ensures SkipsNodes(o) || o.nodes.None? ==> r.nodes == o.nodes
    ensures r.nodes.Some? <==> o.nodes.Some?
    ensures r.nodes.Some? ==> |r.nodes.value| == |o.nodes.value|
    ensures !SkipsNodes(o) && o.nodes.Some? ==>
      r.nodes == Some(BlendNodes(o.nodes.value, prev.nodes, cur.nodes, ObjectAlpha(f.progress, f.camera, cur.center), f.trig))
  {
    var alpha := ObjectAlpha(f.progress, f.camera, cur.center);
    var moved := o.(center := Lerp(prev.center, cur.center, alpha));
    if SkipsNodes(o) || o.nodes.None? then moved
    else moved.(nodes := Some(BlendNodes(o.nodes.value, prev.nodes, cur.nodes, alpha, f.trig)))
  }

  /** `b` differs from `a` only in flags raised from false to true. */
  predicate Raised(a: Generation, b: Generation) {
    |a| == |b| && forall j :: 0 <= j < |a| ==> b[j] == a[j] || (!a[j].blended && b[j] == a[j].(blended := true))
  }

  /** Live state changed only at slots whose flag was raised. */
  predicate TouchedOnlyRaised(a: Generation, b: Generation, t: ObjectTable, t': ObjectTable) {
    |t'| == |t| && forall j :: 0 <= j < |t| && t'[j] != t[j] ==> j < |a| && j < |b| && !a[j].blended && b[j].blended
  }

  /** Every raised slot passed the gate and now holds its blended value. */
  predicate RaisedAreBlended(a: Generation, prev: Generation, t: ObjectTable, b: Generation, t': ObjectTable, f: FrameInput) {
    forall j :: 0 <= j < |a| && j < |b| && !a[j].blended && b[j].blended ==>
      Gate(a, prev, t, j) && j < |t'| && t'[j] == Some(BlendLive(t[j].value, prev[j], a[j], f))
  }

  /** What any part of the per-frame blend does to the current generation
      and the live table. */
  predicate BlendStep(a: Generation, prev: Generation, t: ObjectTable, b: Generation, t': ObjectTable, f: FrameInput) {
    Raised(a, b) && TouchedOnlyRaised(a, b, t, t') && RaisedAreBlended(a, prev, t, b, t', f)
  }

  /** Every slot raised from `a` to `b` had each child that passed the gate
      in `a` blended by `b`. */
  predicate ChildrenBlended(a: Generation, prev: Generation, t: ObjectTable, b: Generation) {
    forall j, c :: 0 <= j < |a| && j < |b| && !a[j].blended && b[j].blended && c in a[j].children && Gate(a, prev, t, c) ==>
      c < |b| && b[c].blended
  }

  /** Every slot raised from `a` to `b` is one of `roots` or a child of
      another raised slot: the blend reaches slots only through the
      children lists. */
  predicate RaisedWithin(a: Generation, b: Generation, roots: seq<nat>) {
    forall j :: 0 <= j < |a| && j < |b| && !a[j].blended && b[j].blended ==>
      j in roots || exists p :: 0 <= p < |a| && p < |b| && !a[p].blended && b[p].blended && j in a[p].children
  }

  /** Confinement survives composing two blend steps, with the roots of both. */
  lemma ComposeWithin(a: Generation, b: Generation, c: Generation, r1: seq<nat>, r2: seq<nat>)
    requires Raised(a, b) && Raised(b, c)
    requires RaisedWithin(a, b, r1) && RaisedWithin(b, c, r2)
    ensures RaisedWithin(a, c, r1 + r2)
  {
    forall j | 0 <= j < |a| && j < |c| && !a[j].blended && c[j].blended && j !in r1 + r2
      ensures exists p :: 0 <= p < |a| && p < |c| && !a[p].blended && c[p].blended && j in a[p].children
    {
      if b[j].blended {
        var p :| 0 <= p < |a| && p < |b| && !a[p].blended && b[p].blended && j in a[p].children;
        assert c[p].blended;
      } else {
        var p :| 0 <= p < |b| && p < |c| && !b[p].blended && c[p].blended && j in b[p].children;
        assert b[p] == a[p];
      }
    }
  }

  /** ComposeWithin for a list walked from position `k`: the head's step,
      then the tail's. */
  lemma ComposeWithinList(a: Generation, b: Generation, c: Generation, cs: seq<nat>, k: nat)
    requires k < |cs|
    requires Raised(a, b) && Raised(b, c)
    requires RaisedWithin(a, b, [cs[k]]) && RaisedWithin(b, c, cs[k + 1..])
    ensures RaisedWithin(a, c, cs[k..])
  {
    ComposeWithin(a, b, c, [cs[k]], cs[k + 1..]);
    assert [cs[k]] + cs[k + 1..] == cs[k..];
  }

  lemma RaisedShrinksUnflagged(a: Generation, b: Generation)
    requires Raised(a, b)
    ensures Unflagged(b) <= Unflagged(a)
  {
  }

  lemma NoStep(a: Generation, prev: Generation, t: ObjectTable, f: FrameInput)
    ensures BlendStep(a, prev, t, a, t, f)
  {
  }

  /** A slot that passed the gate and is still unflagged after a blend step
      still passes it: its snapshot and its live object are untouched. */
  lemma GatePersists(a: Generation, prev: Generation, t: ObjectTable, b: Generation, t1: ObjectTable,
                     f: FrameInput, c: nat)
    requires BlendStep(a, prev, t, b, t1, f)
    requires Gate(a, prev, t, c)
    requires c < |b| && !b[c].blended
    ensures Gate(b, prev, t1, c)
  {
    assert b[c] == a[c];
    assert t1[c] == t[c];
  }

  /** The children guarantee survives composing two blend steps. */
  lemma ComposeChildren(a: Generation, prev: Generation, t: ObjectTable, b: Generation, t1: ObjectTable,
                        c: Generation, t2: ObjectTable, f: FrameInput)
    requires BlendStep(a, prev, t, b, t1, f) && ChildrenBlended(a, prev, t, b)
    requires BlendStep(b, prev, t1, c, t2, f) && ChildrenBlended(b, prev, t1, c)
    ensures ChildrenBlended(a, prev, t, c)
  {
    forall j, x | 0 <= j < |a| && j < |c| && !a[j].blended && c[j].blended && x in a[j].children && Gate(a, prev, t, x)
      ensures x < |c| && c[x].blended
    {
      if b[j].blended {
        assert b[x].blended;
      } else if !b[x].blended {
        assert b[j] == a[j];
        GatePersists(a, prev, t, b, t1, f, x);
      }
    }
  }

  /** Two blend steps in a row are one blend step. */
  lemma ComposeSteps(a: Generation, prev: Generation, t: ObjectTable, b: Generation, t1: ObjectTable,
                     c: Generation, t2: ObjectTable, f: FrameInput)
    requires BlendStep(a, prev, t, b, t1, f)
    requires BlendStep(b, prev, t1, c, t2, f)
    ensures BlendStep(a, prev, t, c, t2, f)
  {
    forall j | 0 <= j < |a| && !a[j].blended && c[j].blended
      ensures Gate(a, prev, t, j) && j < |t2| && t2[j] == Some(BlendLive(t[j].value, prev[j], a[j], f))
    {
      if b[j].blended {
        assert t2[j] == t1[j];
      } else {
        assert b[j] == a[j];
        assert t1[j] == t[j];
      }
    }
  }

  /** Raising slot `i` after it passed the gate, blending its children, and
      writing its own blended value is one blend step. */
  lemma FlagChildrenWrite(a: Generation, prev: Generation, t: ObjectTable, i: nat,
                          b: Generation, t1: ObjectTable, f: FrameInput)
    requires Gate(a, prev, t, i)
    requires BlendStep(a[i := a[i].(blended := true)], prev, t, b, t1, f)
    ensures BlendStep(a, prev, t, b, t1[i := Some(BlendLive(t[i].value, prev[i], a[i], f))], f)
  {
    var a1 := a[i := a[i].(blended := true)];
    var t2 := t1[i := Some(BlendLive(t[i].value, prev[i], a[i], f))];
    forall j | 0 <= j < |a| && !a[j].blended && b[j].blended
      ensures Gate(a, prev, t, j) && j < |t2| && t2[j] == Some(BlendLive(t[j].value, prev[j], a[j], f))
    {
      if j != i {
        assert a1[j] == a[j];
      }
    }
  }

  /** Raising slot `i` and then blending its children gives the children
      guarantee for every slot raised on the way, `i` included. */
  lemma FlagChildrenBlended(a: Generation, prev: Generation, t: ObjectTable, i: nat, b: Generation, t1: ObjectTable, f: FrameInput)
    requires Gate(a, prev, t, i)
    requires BlendStep(a[i := a[i].(blended := true)], prev, t, b, t1, f)
    requires ChildrenBlended(a[i := a[i].(blended := true)], prev, t, b)
    requires forall m :: 0 <= m < |a[i].children| && Gate(a[i := a[i].(blended := true)], prev, t, a[i].children[m]) ==>
      b[a[i].children[m]].blended
    ensures ChildrenBlended(a, prev, t, b)
  {
    var a1 := a[i := a[i].(blended := true)];
    forall j, x | 0 <= j < |a| && j < |b| && !a[j].blended && b[j].blended && x in a[j].children && Gate(a, prev, t, x)
      ensures x < |b| && b[x].blended
    {
      if x == i {
        assert a1[i].blended;
      } else {
        assert a1[x] == a[x];
        assert Gate(a1, prev, t, x);
        if j == i {
          var m :| 0 <= m < |a[i].children| && a[i].children[m] == x;
        } else {
          assert a1[j] == a[j];
        }
      }
    }
  }

  /** Raising slot `i` and then blending only within its children keeps
      every raised slot within `i`'s subtree. */
  lemma FlagWithin(a: Generation, i: nat, b: Generation)
    requires i < |a| && !a[i].blended
    requires Raised(a[i := a[i].(blended := true)], b)
    requires RaisedWithin(a[i := a[i].(blended := true)], b, a[i].children)
    ensures RaisedWithin(a, b, [i])
  {
    var a1 := a[i := a[i].(blended := true)];
    forall j | 0 <= j < |a| && j < |b| && !a[j].blended && b[j].blended && j != i
      ensures exists p :: 0 <= p < |a| && p < |b| && !a[p].blended && b[p].blended && j in a[p].children
    {
      assert a1[j] == a[j];
      if j in a[i].children {
        assert b[i].blended;
      } else {
        var p :| 0 <= p < |a1| && p < |b| && !a1[p].blended && b[p].blended && j in a1[p].children;
        assert a1[p] == a[p];
      }
    }
  }

  /** `interpolate_object(i)`. The flag is raised before the children are
      visited, so a slot is blended at most once per frame and the recursion
      ends even when parent links form a cycle. */
  function BlendObject(cur: Generation, prev: Generation, t: ObjectTable, i: nat, f: FrameInput): (r: (Generation, ObjectTable))
    requires |cur| == Capacity && |prev| == Capacity
    ensures |r.0| == Capacity
    ensures BlendStep(cur, prev, t, r.0, r.1, f)
    ensures Unflagged(r.0) <= Unflagged(cur)
    ensures Gate(cur, prev, t, i) ==> r.0[i].blended
    ensures !Gate(cur, prev, t, i) ==> r == (cur, t)
    ensures ChildrenBlended(cur, prev, t, r.0)
    ensures Gate(cur, prev, t, i) ==> forall c :: c in cur[i].children && Gate(cur, prev, t, c) ==> r.0[c].blended
    ensures RaisedWithin(cur, r.0, [i])
    decreases Unflagged(cur), 0, 0
  {
    if !Gate(cur, prev, t, i) then
      NoStep(cur, prev, t, f);
      (cur, t)
    else
      var flagged := cur[i := cur[i].(blended := true)];
      assert Unflagged(flagged) == Unflagged(cur) - {i};
      var (c2, t2) := BlendChildren(flagged, prev, t, cur[i].children, 0, f);
      // The object is read through its live pointer; its children's blends
      // do not touch this slot, which is already flagged.
      var r := (c2, t2[i := Some(BlendLive(t[i].value, prev[i], cur[i], f))]);
      FlagChildrenWrite(cur, prev, t, i, c2, t2, f);
      FlagChildrenBlended(cur, prev, t, i, c2, t2, f);
      FlagWithin(cur, i, c2);
      RaisedShrinksUnflagged(cur, c2);
      r
  }

  /** Each early return of `interpolate_object` leaves the generation and the
      live table as they were; when none applies, the slot is marked and its
      live object holds the blended value. */
  lemma GateChecks(cur: Generation, prev: Generation, t: ObjectTable, i: nat, f: FrameInput)
    requires |cur| == Capacity && |prev| == Capacity
    ensures i >= Capacity ==> BlendObject(cur, prev, t, i, f) == (cur, t)
    ensures i < Capacity && (!cur[i].interpolate || cur[i].blended) ==> BlendObject(cur, prev, t, i, f) == (cur, t)
    ensures Lookup(t, i).None? ==> BlendObject(cur, prev, t, i, f) == (cur, t)
    ensures i < Capacity && Lookup(t, i).Some?
            && (cur[i].tag != Lookup(t, i).value.tag || prev[i].tag != cur[i].tag || cur[i].index != prev[i].index) ==>
              BlendObject(cur, prev, t, i, f) == (cur, t)
    ensures i < Capacity && DistanceSquared(prev[i].center, cur[i].center) < MinMove2 ==>
              BlendObject(cur, prev, t, i, f) == (cur, t)
    ensures i < Capacity && cur[i].interpolate && !cur[i].blended && Lookup(t, i).Some?
            && cur[i].tag == Lookup(t, i).value.tag && prev[i].tag == cur[i].tag && cur[i].index == prev[i].index
            && DistanceSquared(prev[i].center, cur[i].center) >= MinMove2 ==>
              var r := BlendObject(cur, prev, t, i, f);
              r.0[i].blended && r.1[i] == Some(BlendLive(t[i].value, prev[i], cur[i], f))
  {
    var r := BlendObject(cur, prev, t, i, f);
    if Gate(cur, prev, t, i) {
      assert !cur[i].blended && r.0[i].blended;
    }
  }

  /** The children loop of `interpolate_object`, from child `k` on. */
  function BlendChildren(cur: Generation, prev: Generation, t: ObjectTable, cs: seq<nat>, k: nat, f: FrameInput): (r: (Generation, ObjectTable))
    requires |cur| == Capacity && |prev| == Capacity
    requires k <= |cs|
    ensures |r.0| == Capacity
    ensures BlendStep(cur, prev, t, r.0, r.1, f)
    ensures Unflagged(r.0) <= Unflagged(cur)
    ensures ChildrenBlended(cur, prev, t, r.0)
    ensures forall j :: k <= j < |cs| && Gate(cur, prev, t, cs[j]) ==> r.0[cs[j]].blended
    ensures RaisedWithin(cur, r.0, cs[k..])
    decreases Unflagged(cur), 1, |cs| - k
  {
    if k == |cs| then
      NoStep(cur, prev, t, f);
      (cur, t)
    else
      var (c1, t1) := BlendObject(cur, prev, t, cs[k], f);
      var r := BlendChildren(c1, prev, t1, cs, k + 1, f);
      ComposeSteps(cur, prev, t, c1, t1, r.0, r.1, f);
      ComposeChildren(cur, prev, t, c1, t1, r.0, r.1, f);
      ComposeWithinList(cur, c1, r.0, cs, k);
      assert forall j :: k <= j < |cs| && Gate(cur, prev, t, cs[j]) ==> r.0[cs[j]].blended by {
        forall j | k <= j < |cs| && Gate(cur, prev, t, cs[j])
          ensures r.0[cs[j]].blended
        {
          if !c1[cs[j]].blended {
            GatePersists(cur, prev, t, c1, t1, f, cs[j]);
          }
        }
      }
      r
  }

  /** The loop over the visible-object list. Every visible slot that passes
      the gate when its turn comes, or earlier, ends up blended. */
  function BlendVisible(cur: Generation, prev: Generation, t: ObjectTable, visible: seq<nat>, f: FrameInput): (r: (Generation, ObjectTable))
    requires |cur| == Capacity && |prev| == Capacity
    ensures |r.0| == Capacity
    ensures BlendStep(cur, prev, t, r.0, r.1, f)
    ensures forall k :: k in visible && Gate(cur, prev, t, k) ==> r.0[k].blended
    ensures ChildrenBlended(cur, prev, t, r.0)
    ensures RaisedWithin(cur, r.0, visible)
    decreases |visible|
  {
    if |visible| == 0 then
      NoStep(cur, prev, t, f);
      (cur, t)
    else
      var (c1, t1) := BlendObject(cur, prev, t, visible[0], f);
      var r := BlendVisible(c1, prev, t1, visible[1..], f);
      ComposeSteps(cur, prev, t, c1, t1, r.0, r.1, f);
      ComposeChildren(cur, prev, t, c1, t1, r.0, r.1, f);
      ComposeWithinList(cur, c1, r.0, visible, 0);
      assert forall k :: k in visible && Gate(cur, prev, t, k) ==> r.0[k].blended by {
        forall k | k in visible && Gate(cur, prev, t, k)
          ensures r.0[k].blended
        {
          if !c1[k].blended {
            assert c1[k] == cur[k];
            assert Lookup(t1, k) == Lookup(t, k);
            assert k != visible[0];
            assert k in visible[1..];
          }
        }
      }
      r
  }

  // ---------------------------------------------------------------------
  // Module entry points
  // ---------------------------------------------------------------------

  /** `interpolate_object_on_tick`: only arms the lazy rollover. */
  function OnTick(st: ObjectState): (r: ObjectState)
    ensures r.tickPassed
    ensures r.(tickPassed := st.tickPassed) == st
  {
    st.(tickPassed := true)
  }

  /** Swap roles and capture into the new current generation. */
  function Rollover(st: ObjectState, t: ObjectTable): (r: ObjectState)
    requires st.Valid()
    ensures r.Valid()
    ensures r.roles == st.roles.Swap()
    ensures !r.tickPassed
    ensures r.Previous() == st.Current()
    ensures r.Current() == CaptureGeneration(st.Previous(), st.Current(), t)
  {
    var roles := st.roles.Swap();
    var g := CaptureGeneration(st.buffers[roles.current], st.buffers[roles.previous], t);
    ObjectState(st.buffers[roles.current := g], roles, false)
  }

  /** `interpolate_object_before`: the pending rollover (once), then the
      blend of every visible object. */
  function Before(st: ObjectState, t: ObjectTable, visible: seq<nat>, f: FrameInput): (r: (ObjectState, ObjectTable))
    requires st.Valid()
    ensures r.0.Valid()
    ensures !r.0.tickPassed
    ensures r.0.roles == if st.tickPassed then st.roles.Swap() else st.roles
    ensures r.0.Previous() == if st.tickPassed then st.Current() else st.Previous()
    ensures var s := if st.tickPassed then Rollover(st, t) else st;
            BlendStep(s.Current(), s.Previous(), t, r.0.Current(), r.1, f)
            && forall k :: k in visible && Gate(s.Current(), s.Previous(), t, k) ==> r.0.Current()[k].blended
    ensures var s := if st.tickPassed then Rollover(st, t) else st;
            forall k, c :: k in visible && Gate(s.Current(), s.Previous(), t, k)
                           && c in s.Current()[k].children && Gate(s.Current(), s.Previous(), t, c) ==>
              r.0.Current()[c].blended
    ensures var s := if st.tickPassed then Rollover(st, t) else st;
            RaisedWithin(s.Current(), r.0.Current(), visible)
    ensures var s := if st.tickPassed then Rollover(st, t) else st;
            ChildrenBlended(s.Current(), s.Previous(), t, r.0.Current())
  {
    var s := if st.tickPassed then Rollover(st, t) else st;
    var (g, t') := BlendVisible(s.Current(), s.Previous(), t, visible, f);
    (s.(buffers := s.buffers[s.roles.current := g]), t')
  }

  /** Puts back the authoritative center and nodes of a blended object. */
  function Restore(o: LiveObject, s: Snapshot): (r: LiveObject)
    ensures r.center == s.center
    ensures r.(center := o.center, nodes := o.nodes) == o
    ensures o.nodes.None? ==> r.nodes.None?
    ensures o.nodes.Some? ==> r.nodes.Some? && |r.nodes.value| == |o.nodes.value|
    ensures o.nodes.Some? ==> forall n :: 0 <= n < |o.nodes.value| && n < |s.nodes| ==> r.nodes.value[n] == s.nodes[n]
    ensures o.nodes.Some? ==> forall n :: |s.nodes| <= n < |o.nodes.value| ==> r.nodes.value[n] == o.nodes.value[n]
  {
    if o.nodes.None? then o.(center := s.center)
    else
      var live := o.nodes.value;
      o.(center := s.center,
         nodes := Some(seq(|live|, n requires 0 <= n < |live| => if n < |s.nodes| then s.nodes[n] else live[n])))
  }

  /** Whether slot `j` is restored: flagged and below the table's size. */
  predicate RestoresSlot(g: Generation, t: ObjectTable, j: nat) {
    j < |g| && j < |t| && j < Capacity && g[j].blended
  }

  /** `interpolate_object_after`. */
  function After(st: ObjectState, t: ObjectTable): (r: (ObjectState, ObjectTable))
    requires st.Valid()
    ensures r.0.Valid()
    ensures r.0.roles == st.roles && r.0.tickPassed == st.tickPassed
    ensures r.0.Previous() == st.Previous()
    ensures |r.1| == |t|
    ensures forall j :: 0 <= j < Capacity ==>
      if RestoresSlot(st.Current(), t, j) then r.0.Current()[j] == st.Current()[j].(blended := false)
      else r.0.Current()[j] == st.Current()[j]
    ensures forall j :: 0 <= j < |t| ==>
      if RestoresSlot(st.Current(), t, j) && t[j].Some? then r.1[j] == Some(Restore(t[j].value, st.Current()[j]))
      else r.1[j] == t[j]
  {
    var g := st.Current();
    var g' := seq(Capacity, j requires 0 <= j < Capacity => if RestoresSlot(g, t, j) then g[j].(blended := false) else g[j]);
    var t' := seq(|t|, j requires 0 <= j < |t| =>
      if RestoresSlot(g, t, j) && t[j].Some? then Some(Restore(t[j].value, g[j])) else t[j]);
    (st.(buffers := st.buffers[st.roles.current := g']), t')
  }

  /** `interpolate_object_clear`: resets the flags and index of the current
      generation only. */
  function Clear(st: ObjectState): (r: ObjectState)
    requires st.Valid()
    ensures r.Valid()
    ensures r.roles == st.roles && r.tickPassed == st.tickPassed
    ensures r.Previous() == st.Previous()
    ensures forall j :: 0 <= j < Capacity ==>
      !r.Current()[j].interpolate && !r.Current()[j].blended && r.Current()[j].index == 0
    ensures forall j :: 0 <= j < Capacity ==>
      r.Current()[j].(interpolate := st.Current()[j].interpolate, blended := st.Current()[j].blended,
                      index := st.Current()[j].index) == st.Current()[j]
  {
    var g := st.Current();
    var g' := seq(Capacity, j requires 0 <= j < Capacity => g[j].(interpolate := false, blended := false, index := 0));
    st.(buffers := st.buffers[st.roles.current := g'])
  }

  // ---------------------------------------------------------------------
  // Properties
  // ---------------------------------------------------------------------

  /** The live table agrees with the current generation on every slot that
      may be blended: same center, and the snapshot nodes are a prefix of
      the live nodes. */
  predicate Synced(g: Generation, t: ObjectTable) {
    forall j :: 0 <= j < |g| && j < |t| && g[j].interpolate && t[j].Some? ==>
      t[j].value.center == g[j].center && t[j].value.nodes.Some? && IsPrefix(g[j].nodes, t[j].value.nodes.value)
  }

  predicate NoneBlended(g: Generation) {
    forall j :: 0 <= j < |g| ==> !g[j].blended
  }

  /** A fresh capture agrees with the live table and has no slot blended. */
  lemma CaptureSynced(cur: Generation, prev: Generation, t: ObjectTable)
    requires |cur| == Capacity && |prev| == Capacity
    ensures Synced(CaptureGeneration(cur, prev, t), t)
    ensures NoneBlended(CaptureGeneration(cur, prev, t))
  {
    var g := CaptureGeneration(cur, prev, t);
    forall j | 0 <= j < |g| && j < |t| && g[j].interpolate && t[j].Some?
      ensures t[j].value.center == g[j].center && t[j].value.nodes.Some? && IsPrefix(g[j].nodes, t[j].value.nodes.value)
    {
      assert Lookup(t, j) == t[j];
      assert g[j] == CaptureSlot(cur[j], prev[j], t[j]).(children := g[j].children);
    }
  }

  /** Restoring a blended object that agreed with its snapshot gives back
      the object exactly. */
  lemma RestoreUndoesBlend(o: LiveObject, prev: Snapshot, cur: Snapshot, f: FrameInput)
    requires o.center == cur.center && o.nodes.Some? && IsPrefix(cur.nodes, o.nodes.value)
    ensures Restore(BlendLive(o, prev, cur, f), cur) == o
  {
    var b := BlendLive(o, prev, cur, f);
    var r := Restore(b, cur);
    var live := o.nodes.value;
    assert r.nodes.value == live by {
      forall n | 0 <= n < |live|
        ensures r.nodes.value[n] == live[n]
      {
        if n < |cur.nodes| {
          assert live[..|cur.nodes|][n] == cur.nodes[n];
        }
      }
    }
  }

  /** Blend then restore: when the live table agrees with the current
      generation and nothing is blended yet, a frame's blend followed by
      the restore leaves the live table exactly as it was and clears every
      flag again. */
  lemma BlendThenRestore(st: ObjectState, t: ObjectTable, visible: seq<nat>, f: FrameInput)
    requires st.Valid()
    requires !st.tickPassed
    requires Synced(st.Current(), t) && NoneBlended(st.Current())
    ensures After(Before(st, t, visible, f).0, Before(st, t, visible, f).1).1 == t
    ensures NoneBlended(After(Before(st, t, visible, f).0, Before(st, t, visible, f).1).0.Current())
  {
    var (s1, t1) := Before(st, t, visible, f);
    var (s2, t2) := After(s1, t1);
    var g := st.Current();
    var g1 := s1.Current();
    assert BlendStep(g, st.Previous(), t, g1, t1, f);
    forall j | 0 <= j < |t|
      ensures t2[j] == t[j]
    {
      if RestoresSlot(g1, t1, j) && t1[j].Some? {
        assert !g[j].blended;
        assert Gate(g, st.Previous(), t, j);
        assert Lookup(t, j) == t[j];
        assert g1[j] == g[j].(blended := true);
        RestoreUndoesBlend(t[j].value, st.Previous()[j], g[j], f);
      }
    }
  }

  /** The same round trip across a tick: the rollover captures the live
      table, so the frame's blend and restore leave it unchanged. */
  lemma CaptureBlendThenRestore(st: ObjectState, t: ObjectTable, visible: seq<nat>, f: FrameInput)
    requires st.Valid()
    requires st.tickPassed
    ensures After(Before(st, t, visible, f).0, Before(st, t, visible, f).1).1 == t
  {
    var s := Rollover(st, t);
    CaptureSynced(st.Previous(), st.Current(), t);
    assert Before(st, t, visible, f) == Before(s, t, visible, f);
    BlendThenRestore(s, t, visible, f);
  }

  /** After a reset, the next frame blends nothing as long as every live
      object has a non-zero id: either no slot is eligible, or the previous
      generation's cleared index disagrees with every live id. */
  lemma ClearThenBlendNothing(st: ObjectState, t: ObjectTable, visible: seq<nat>, f: FrameInput)
    requires st.Valid()
    requires forall j :: 0 <= j < |t| && t[j].Some? ==> t[j].value.id != 0
    ensures Before(Clear(st), t, visible, f).1 == t
  {
    var c := Clear(st);
    var s := if c.tickPassed then Rollover(c, t) else c;
    var (g1, t1) := BlendVisible(s.Current(), s.Previous(), t, visible, f);
    forall j | 0 <= j < Capacity
      ensures !Gate(s.Current(), s.Previous(), t, j)
    {
      if c.tickPassed && Lookup(t, j).Some? {
        assert s.Current()[j].index == Lookup(t, j).value.id;
        assert s.Previous()[j].index == 0;
      }
    }
  }

  /** A blended slot is written exactly once per frame: every change to the
      live table is at a slot raised during this frame, and a slot raised
      earlier is never written again. */
  lemma AtMostOncePerFrame(st: ObjectState, t: ObjectTable, visible: seq<nat>, f: FrameInput, j: nat)
    requires st.Valid() && !st.tickPassed
    requires j < |t| && j < Capacity && st.Current()[j].blended
    ensures Before(st, t, visible, f).1[j] == t[j]
  {
  }

  /** The source's parent map names slot 0 as the parent of every object
      that has no parent or never reaches the parent step, so slot 0's
      children list holds them all; with an explicit "no parent" it does not. */
  lemma UnsetParentsBecomeChildrenOfSlotZero(t: ObjectTable, i: SlotIndex)
    requires i >= 1
    requires ParentOf(Lookup(t, i)) == None
    ensures i in AppendChildren(ParentMapAsWritten(t), Capacity)[0]
    ensures i !in AppendChildren(ParentMap(t), Capacity)[0]
  {
    AppendChildrenIsChildrenOf(ParentMapAsWritten(t), Capacity);
    AppendChildrenIsChildrenOf(ParentMap(t), Capacity);
    assert ParentMapAsWritten(t)[i] == Some(0);
  }
}
