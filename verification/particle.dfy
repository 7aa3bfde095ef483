/** Particle interpolation: two generations of per-slot particle positions,
    a capture on the first frame after a tick, a position blend that marks
    the slot, and a restore of every marked slot after rendering. */
module Particles {
  import opened MathTrig
  import opened Host
  import Roles

  /** Slots per generation (`PARTICLE_BUFFER_SIZE`). */
  const Capacity: nat := 1024

  /** One live particle: the word whose low 16 bits say whether it moves,
      and its position. */
  datatype ParticleRecord = ParticleRecord(unknown0: Word, position: Vec3)

  /** The particle table; its length is `current_size`, a free slot is `None`. */
  type ParticleTable = seq<Option<ParticleRecord>>

  /** One captured particle (`InterpolatedParticle`). */
  datatype ParticleSnapshot = ParticleSnapshot(interpolate: bool, blended: bool, position: Vec3)

  const ZeroParticle: ParticleSnapshot := ParticleSnapshot(false, false, Origin)

  type Generation = seq<ParticleSnapshot>

  datatype ParticleState = ParticleState(buffers: seq<Generation>, roles: Roles.Pair, tickPassed: bool) {
    predicate Valid() {
      roles.Valid() && |buffers| == 2 && |buffers[0]| == Capacity && |buffers[1]| == Capacity
    }

    function Current(): Generation
      requires Valid()
    {
      buffers[roles.current]
    }

    function Previous(): Generation
      requires Valid()
    {
      buffers[roles.previous]
    }
  }

  const Initial: ParticleState :=
    ParticleState([seq(Capacity, _ => ZeroParticle), seq(Capacity, _ => ZeroParticle)], Roles.Initial, false)

  /** `get_element(i)`. */
  function Element(t: ParticleTable, i: nat): Option<ParticleRecord> {
    if i < |t| then t[i] else None
  }

  /** `unknown0 & 0xFFFF`: the low 16 bits of the word. */
  function Low16(w: Word): (r: nat)
    ensures r < 0x1_0000
    ensures w < 0x1_0000 ==> r == w
    ensures (w - r) % 0x1_0000 == 0
  {
    w % 0x1_0000
  }

  /** A particle moves between ticks when the low half of its first word is non-zero. */
  predicate Moves(p: ParticleRecord) {
    Low16(p.unknown0) != 0
  }

  /** The capture: swap the roles, reset both flags of every slot, and take
      the position of every live particle. Free slots keep a stale position. */
  function Capture(st: ParticleState, t: ParticleTable): (r: ParticleState)
    requires st.Valid()
    ensures r.Valid()
    ensures r.roles == st.roles.Swap() && !r.tickPassed
    ensures r.Previous() == st.Current()
    ensures forall i :: 0 <= i < Capacity ==> !r.Current()[i].blended
    ensures forall i :: 0 <= i < Capacity ==>
      (r.Current()[i].interpolate <==> Element(t, i).Some? && Moves(Element(t, i).value))
    ensures forall i :: 0 <= i < Capacity && Element(t, i).Some? ==>
      r.Current()[i].position == Element(t, i).value.position
  {
    var roles := st.roles.Swap();
    var stale := st.buffers[roles.current];
    var g := seq(Capacity, i requires 0 <= i < Capacity =>
      var p := Element(t, i);
      if p.None? then stale[i].(interpolate := false, blended := false)
      else ParticleSnapshot(Moves(p.value), false, p.value.position));
    ParticleState(st.buffers[roles.current := g], roles, false)
  }

  /** Whether slot `i` is blended: in range, live, and flagged in both generations. */
  predicate BlendsSlot(cur: Generation, prev: Generation, t: ParticleTable, i: nat) {
    i < |t| && i < Capacity && i < |cur| && i < |prev| && t[i].Some? && cur[i].interpolate && prev[i].interpolate
  }

  /** The blend loop over `min(current_size, PARTICLE_BUFFER_SIZE)` slots. */
  function Blend(st: ParticleState, t: ParticleTable, progress: real): (r: (ParticleState, ParticleTable))
    requires st.Valid()
    ensures r.0.Valid() && r.0.roles == st.roles && r.0.tickPassed == st.tickPassed
    ensures r.0.Previous() == st.Previous()
    ensures |r.1| == |t|
    ensures forall i :: 0 <= i < Capacity ==>
      r.0.Current()[i] == if BlendsSlot(st.Current(), st.Previous(), t, i)
                          then st.Current()[i].(blended := true) else st.Current()[i]
    ensures forall i :: 0 <= i < |t| ==>
      r.1[i] == if BlendsSlot(st.Current(), st.Previous(), t, i)
                then Some(t[i].value.(position := Lerp(st.Previous()[i].position, st.Current()[i].position, progress)))
                else t[i]
  {
    var cur := st.Current();
    var prev := st.Previous();
    var g := seq(Capacity, i requires 0 <= i < Capacity =>
      if BlendsSlot(cur, prev, t, i) then cur[i].(blended := true) else cur[i]);
    var t' := seq(|t|, i requires 0 <= i < |t| =>
      if BlendsSlot(cur, prev, t, i)
      then Some(t[i].value.(position := Lerp(prev[i].position, cur[i].position, progress)))
      else t[i]);
    (st.(buffers := st.buffers[st.roles.current := g]), t')
  }

  /** `interpolate_particle`: the pending capture, then the blend. */
  function Before(st: ParticleState, t: ParticleTable, progress: real): (r: (ParticleState, ParticleTable))
    requires st.Valid()
    ensures r.0.Valid() && !r.0.tickPassed
    ensures r == Blend(if st.tickPassed then Capture(st, t) else st, t, progress)
    ensures r.0.Previous() == if st.tickPassed then st.Current() else st.Previous()
    ensures |r.1| == |t|
    ensures st.tickPassed ==> forall i :: 0 <= i < Capacity ==>
      (r.0.Current()[i].blended <==>
         i < |t| && t[i].Some? && Moves(t[i].value) && st.Current()[i].interpolate)
    ensures st.tickPassed ==> forall i :: 0 <= i < |t| ==>
      r.1[i] == if i < Capacity && t[i].Some? && Moves(t[i].value) && st.Current()[i].interpolate
                then Some(t[i].value.(position := Lerp(st.Current()[i].position, t[i].value.position, progress)))
                else t[i]
    ensures !st.tickPassed ==> forall i :: 0 <= i < Capacity ==>
      (r.0.Current()[i].blended <==> st.Current()[i].blended || BlendsSlot(st.Current(), st.Previous(), t, i))
    ensures !st.tickPassed ==> forall i :: 0 <= i < |t| ==>
      r.1[i] == if BlendsSlot(st.Current(), st.Previous(), t, i)
                then Some(t[i].value.(position := Lerp(st.Previous()[i].position, st.Current()[i].position, progress)))
                else t[i]
  {
    Blend(if st.tickPassed then Capture(st, t) else st, t, progress)
  }

  /** Whether slot `i` is restored: in range, live, and marked this frame. */
  predicate RestoresSlot(cur: Generation, t: ParticleTable, i: nat) {
    i < |t| && i < Capacity && i < |cur| && t[i].Some? && cur[i].blended
  }

  /** `interpolate_particle_after`. */
  function After(st: ParticleState, t: ParticleTable): (r: (ParticleState, ParticleTable))
    requires st.Valid()
    ensures r.0.Valid() && r.0.roles == st.roles && r.0.tickPassed == st.tickPassed
    ensures r.0.Previous() == st.Previous()
    ensures |r.1| == |t|
    ensures forall i :: 0 <= i < Capacity ==>
      r.0.Current()[i] == if RestoresSlot(st.Current(), t, i) then st.Current()[i].(blended := false) else st.Current()[i]
    ensures forall i :: 0 <= i < |t| ==>
      r.1[i] == if RestoresSlot(st.Current(), t, i)
                then Some(t[i].value.(position := st.Current()[i].position)) else t[i]
  {
    var cur := st.Current();
    var g := seq(Capacity, i requires 0 <= i < Capacity =>
      if RestoresSlot(cur, t, i) then cur[i].(blended := false) else cur[i]);
    var t' := seq(|t|, i requires 0 <= i < |t| =>
      if RestoresSlot(cur, t, i) then Some(t[i].value.(position := cur[i].position)) else t[i]);
    (st.(buffers := st.buffers[st.roles.current := g]), t')
  }

  /** `interpolate_particle_clear`: both flags off in both generations;
      positions and roles are kept. */
  function Clear(st: ParticleState): (r: ParticleState)
    requires st.Valid()
    ensures r.Valid() && r.roles == st.roles && r.tickPassed == st.tickPassed
    ensures forall b, i :: 0 <= b < 2 && 0 <= i < Capacity ==>
      r.buffers[b][i] == ParticleSnapshot(false, false, st.buffers[b][i].position)
  {
    var reset := (g: Generation) requires |g| == Capacity =>
      seq(Capacity, i requires 0 <= i < Capacity => ParticleSnapshot(false, false, g[i].position));
    st.(buffers := [reset(st.buffers[0]), reset(st.buffers[1])])
  }

  /** `interpolate_particle_on_tick`. */
  function OnTick(st: ParticleState): (r: ParticleState)
    ensures r.tickPassed && r.(tickPassed := st.tickPassed) == st
  {
    st.(tickPassed := true)
  }

  // ---------------------------------------------------------------------
  // Properties
  // ---------------------------------------------------------------------

  /** Every live, moving slot of the current generation holds the live
      position, and no slot is marked. */
  predicate Synced(st: ParticleState, t: ParticleTable)
    requires st.Valid()
  {
    forall i :: 0 <= i < Capacity ==>
      !st.Current()[i].blended
      && (st.Current()[i].interpolate && Element(t, i).Some? ==> Element(t, i).value.position == st.Current()[i].position)
  }

  /** A capture leaves the state synced with the table it read. */
  lemma CaptureSynced(st: ParticleState, t: ParticleTable)
    requires st.Valid()
    ensures Synced(Capture(st, t), t)
  {
  }

  /** Blend then restore gives the particle table back and leaves no slot
      marked, from any synced state. */
  lemma BlendThenRestore(st: ParticleState, t: ParticleTable, progress: real)
    requires st.Valid() && Synced(st, t)
    ensures After(Blend(st, t, progress).0, Blend(st, t, progress).1).1 == t
    ensures Synced(After(Blend(st, t, progress).0, Blend(st, t, progress).1).0, t)
  {
    var (s1, t1) := Blend(st, t, progress);
    var (s2, t2) := After(s1, t1);
    forall i | 0 <= i < |t|
      ensures t2[i] == t[i]
    {
      if RestoresSlot(s1.Current(), t1, i) {
        assert BlendsSlot(st.Current(), st.Previous(), t, i);
        assert Element(t, i) == t[i];
      }
    }
  }

  /** The round trip across a tick: capture, blend and restore leave the
      particle table as it was. */
  lemma TickBlendThenRestore(st: ParticleState, t: ParticleTable, progress: real)
    requires st.Valid() && st.tickPassed
    ensures After(Before(st, t, progress).0, Before(st, t, progress).1).1 == t
  {
    CaptureSynced(st, t);
    BlendThenRestore(Capture(st, t), t, progress);
  }

  /** Blending twice in a frame writes the same positions again. */
  lemma BlendIdempotent(st: ParticleState, t: ParticleTable, progress: real)
    requires st.Valid()
    ensures var (s1, t1) := Blend(st, t, progress); Blend(s1, t1, progress) == (s1, t1)
  {
    var (s1, t1) := Blend(st, t, progress);
    var (s2, t2) := Blend(s1, t1, progress);
    assert s2.Current() == s1.Current() by {
      forall i | 0 <= i < Capacity
        ensures s2.Current()[i] == s1.Current()[i]
      {
        if BlendsSlot(s1.Current(), s1.Previous(), t1, i) {
          assert BlendsSlot(st.Current(), st.Previous(), t, i);
        }
      }
    }
    assert s2.buffers == s1.buffers;
    assert t2 == t1;
  }

  /** After a reset nothing is blended until two captures in a row have
      flagged a particle. */
  lemma ClearThenNoBlend(st: ParticleState, t: ParticleTable, progress: real)
    requires st.Valid()
    ensures Before(Clear(st), t, progress).1 == t
    ensures Before(OnTick(Clear(st)), t, progress).1 == t
  {
  }
}
