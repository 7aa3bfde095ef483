/** Light interpolation: two generations of per-slot light snapshots whose
    eligibility comes from the light's update counter, a first-sight seeding
    of the previous generation, and a position and orientation blend. The
    module has no restore step. */
module Lights {
  import opened MathTrig
  import opened Host
  import Roles

  /** Slots per generation (`MAX_LIGHT`). */
  const MaxLight: nat := 0x380

  /** One element of the host light table; the table's length is its
      `current_size`, and `alive` says whether `get_element` returns it. */
  datatype LightRecord = LightRecord(alive: bool, counter: Word, position: Vec3, forward: Vec3, up: Vec3)

  type LightTable = seq<LightRecord>

  /** One captured light (`InterpolatedLight`). */
  datatype LightSnapshot = LightSnapshot(interpolate: bool, position: Vec3, forward: Vec3, up: Vec3, counter: Word)

  const ZeroLight: LightSnapshot := LightSnapshot(false, Origin, Origin, Origin, 0)

  type Generation = seq<LightSnapshot>

  datatype LightState = LightState(buffers: seq<Generation>, roles: Roles.Pair, tickPassed: bool) {
    predicate Valid() {
      roles.Valid() && |buffers| == 2 && |buffers[0]| == MaxLight && |buffers[1]| == MaxLight
    }

    function Current(): Generation
      requires Valid()
    {
      buffers[roles.current]
    }

    function Previous(): Generation
      requires Valid()
    {
      buffers[roles.previous]
    }
  }

  function ZeroGeneration(): (g: Generation)
    ensures |g| == MaxLight
    ensures forall i :: 0 <= i < MaxLight ==> g[i] == ZeroLight
  {
    seq(MaxLight, _ => ZeroLight)
  }

  const Initial: LightState := LightState([ZeroGeneration(), ZeroGeneration()], Roles.Initial, false)

  /** `get_element(i)`: the light when the slot is in range and alive. */
  function Element(t: LightTable, i: nat): Option<LightRecord> {
    if i < |t| && t[i].alive then Some(t[i]) else None
  }

  /** A light is captured for interpolation when it was seen before (its
      previous counter is non-zero) and its counter advanced since. */
  predicate LightEligible(light: LightRecord, prev: LightSnapshot) {
    prev.counter != 0 && light.counter > prev.counter
  }

  /** The per-slot body of the capture loop, returning the new current
      snapshot and the possibly seeded previous one. */
  function CaptureSlot(cur: LightSnapshot, prev: LightSnapshot, light: Option<LightRecord>): (r: (LightSnapshot, LightSnapshot))
    ensures r.0.interpolate <==> light.Some? && LightEligible(light.value, prev)
    ensures light.None? ==> r == (cur.(interpolate := false), prev)
    ensures light.Some? ==> r.0.counter == light.value.counter
    ensures light.Some? && prev.counter != 0 ==> r.1 == prev
    ensures light.Some? && prev.counter == 0 ==>
      r.1 == prev.(counter := light.value.counter, position := light.value.position,
                   forward := light.value.forward, up := light.value.up)
    ensures r.0.interpolate ==>
      r.0.position == light.value.position && r.0.forward == light.value.forward && r.0.up == light.value.up
  {
    var cur := cur.(interpolate := false);
    if light.None? then (cur, prev)
    else
      var l := light.value;
      var cur := cur.(counter := l.counter);
      var prev := if prev.counter == 0
                  then prev.(counter := cur.counter, position := l.position, forward := l.forward, up := l.up)
                  else prev;
      if cur.counter > prev.counter
      then (cur.(interpolate := true, position := l.position, forward := l.forward, up := l.up), prev)
      else (cur, prev)
  }

  /** The capture: toggle the roles, then run the slot loop over every slot. */
  function Capture(st: LightState, t: LightTable): (r: LightState)
    requires st.Valid()
    ensures r.Valid()
    ensures r.roles == st.roles.Toggle() && !r.tickPassed
    ensures forall i :: 0 <= i < MaxLight ==>
      (r.Current()[i].interpolate <==> Element(t, i).Some? && LightEligible(Element(t, i).value, st.Current()[i]))
    ensures forall i :: 0 <= i < MaxLight ==>
      r.Previous()[i] == st.Current()[i] || (Element(t, i).Some? && st.Current()[i].counter == 0)
    ensures forall i :: 0 <= i < MaxLight ==>
      (r.Current()[i], r.Previous()[i]) == CaptureSlot(st.Previous()[i], st.Current()[i], Element(t, i))
  {
    var roles := st.roles.Toggle();
    var cur := st.buffers[roles.current];
    var prev := st.buffers[roles.previous];
    var slots := seq(MaxLight, i requires 0 <= i < MaxLight => CaptureSlot(cur[i], prev[i], Element(t, i)));
    var cur' := seq(MaxLight, i requires 0 <= i < MaxLight => slots[i].0);
    var prev' := seq(MaxLight, i requires 0 <= i < MaxLight => slots[i].1);
    LightState(st.buffers[roles.current := cur'][roles.previous := prev'], roles, false)
  }

  /** Whether slot `i` is blended: in range of both the table and the
      generations, and flagged in both generations. Liveness is not checked. */
  predicate BlendsSlot(st: LightState, t: LightTable, i: nat)
    requires st.Valid()
  {
    i < |t| && i < MaxLight && st.Current()[i].interpolate && st.Previous()[i].interpolate
  }

  function BlendRecord(rec: LightRecord, prev: LightSnapshot, cur: LightSnapshot, progress: real): (r: LightRecord)
    ensures r.forward == Lerp(prev.forward, cur.forward, progress)
    ensures r.up == Lerp(prev.up, cur.up, progress)
    ensures r.position == Lerp(prev.position, cur.position, progress)
    ensures r.alive == rec.alive && r.counter == rec.counter
  {
    rec.(forward := Lerp(prev.forward, cur.forward, progress),
         up := Lerp(prev.up, cur.up, progress),
         position := Lerp(prev.position, cur.position, progress))
  }

  /** The blend loop over `min(current_size, MAX_LIGHT)` slots. */
  function Blend(st: LightState, t: LightTable, progress: real): (r: LightTable)
    requires st.Valid()
    ensures |r| == |t|
    ensures forall i :: 0 <= i < |t| && !BlendsSlot(st, t, i) ==> r[i] == t[i]
    ensures forall i :: 0 <= i < |t| && BlendsSlot(st, t, i) ==>
      r[i] == BlendRecord(t[i], st.Previous()[i], st.Current()[i], progress)
  {
    seq(|t|, i requires 0 <= i < |t| =>
      if BlendsSlot(st, t, i) then BlendRecord(t[i], st.Previous()[i], st.Current()[i], progress) else t[i])
  }

  /** `interpolate_light_before`: the pending capture, then the blend. */
  function Before(st: LightState, t: LightTable, progress: real): (r: (LightState, LightTable))
    requires st.Valid()
    ensures r.0.Valid() && !r.0.tickPassed
    ensures r.0 == if st.tickPassed then Capture(st, t) else st
    ensures r.1 == Blend(r.0, t, progress)
    ensures |r.1| == |t|
    ensures forall i :: 0 <= i < |t| ==>
      r.1[i].(position := t[i].position, forward := t[i].forward, up := t[i].up) == t[i]
    ensures st.tickPassed ==> forall i :: 0 <= i < |t| ==>
      (BlendsSlot(r.0, t, i) <==>
         i < MaxLight && t[i].alive && LightEligible(t[i], st.Current()[i]) && st.Current()[i].interpolate)
    ensures st.tickPassed ==> forall i :: 0 <= i < |t| && BlendsSlot(r.0, t, i) ==>
      && r.1[i].position == Lerp(st.Current()[i].position, t[i].position, progress)
      && r.1[i].forward == Lerp(st.Current()[i].forward, t[i].forward, progress)
      && r.1[i].up == Lerp(st.Current()[i].up, t[i].up, progress)
    ensures !st.tickPassed ==> forall i :: 0 <= i < |t| && BlendsSlot(st, t, i) ==>
      && r.1[i].position == Lerp(st.Previous()[i].position, st.Current()[i].position, progress)
      && r.1[i].forward == Lerp(st.Previous()[i].forward, st.Current()[i].forward, progress)
      && r.1[i].up == Lerp(st.Previous()[i].up, st.Current()[i].up, progress)
    ensures forall i :: 0 <= i < |t| && !BlendsSlot(r.0, t, i) ==> r.1[i] == t[i]
  {
    var s := if st.tickPassed then Capture(st, t) else st;
    (s, Blend(s, t, progress))
  }

  /** `interpolate_light_clear`: both generations zeroed, roles kept. */
  function Clear(st: LightState): (r: LightState)
    requires st.Valid()
    ensures r.Valid()
    ensures r.Current() == ZeroGeneration() && r.Previous() == ZeroGeneration()
    ensures r.roles == st.roles && r.tickPassed == st.tickPassed
  {
    st.(buffers := [ZeroGeneration(), ZeroGeneration()])
  }

  /** `interpolate_light_on_tick`. */
  function OnTick(st: LightState): (r: LightState)
    ensures r.tickPassed && r.(tickPassed := st.tickPassed) == st
  {
    st.(tickPassed := true)
  }

  // ---------------------------------------------------------------------
  // Properties
  // ---------------------------------------------------------------------

  /** A light's first sighting only seeds the previous generation: it is
      never flagged at that capture. */
  lemma FirstSightIsNotInterpolated(st: LightState, t: LightTable, i: nat)
    requires st.Valid() && i < MaxLight && st.Current()[i].counter == 0
    ensures !Capture(st, t).Current()[i].interpolate
  {
  }

  /** After a reset the next capture flags no light, so the frames of the
      next tick blend nothing. */
  lemma ClearThenNoBlend(st: LightState, t: LightTable, progress: real)
    requires st.Valid()
    ensures Before(OnTick(Clear(st)), t, progress).1 == t
    ensures Before(Clear(st), t, progress).1 == t
  {
    var c := Capture(Clear(st), t);
    assert forall i :: 0 <= i < MaxLight ==> !c.Current()[i].interpolate;
  }

  /** Blending at the end of the tick puts each blended light exactly where
      the current generation captured it, and at the start where the
      previous one did. */
  lemma BlendEndpoints(st: LightState, t: LightTable, i: nat)
    requires st.Valid() && i < |t| && BlendsSlot(st, t, i)
    ensures Blend(st, t, 1.0)[i].position == st.Current()[i].position
    ensures Blend(st, t, 0.0)[i].position == st.Previous()[i].position
    ensures Blend(st, t, 1.0)[i].forward == st.Current()[i].forward && Blend(st, t, 1.0)[i].up == st.Current()[i].up
  {
  }

  /** The blend depends only on the generations, so repeating it with the
      same progress changes nothing. */
  lemma BlendIdempotent(st: LightState, t: LightTable, progress: real)
    requires st.Valid()
    ensures Blend(st, Blend(st, t, progress), progress) == Blend(st, t, progress)
  {
  }

  /** A light is blended only after two captures in a row flagged it, which
      needs its counter to have advanced at both. */
  lemma BlendNeedsTwoAdvances(st: LightState, t1: LightTable, t2: LightTable, i: nat)
    requires st.Valid() && i < MaxLight && i < |t2|
    requires BlendsSlot(Capture(Capture(st, t1), t2), t2, i)
    ensures Element(t1, i).Some? && LightEligible(Element(t1, i).value, st.Current()[i])
    ensures Element(t2, i).Some?
    ensures LightEligible(Element(t2, i).value, Capture(st, t1).Current()[i])
  {
  }
}
