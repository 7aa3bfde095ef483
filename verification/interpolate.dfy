/** The coordinator: the shared progress clock with its fixed delay and
    per-frame deadband, and the tick, pre-frame, frame and reset events that
    drive the object, light, particle, camera and first-person modules. */
module Interpolate {
  import opened MathTrig
  import opened Host
  import Objects
  import Lights
  import Particles
  import Camera
  import FirstPerson

  /** The fixed delay subtracted from the raw tick progress (`INTERP_DELAY`). */
  const InterpDelay: real := 0.25

  /** A progress step at or below this does no work (`MIN_PROGRESS_DELTA`). */
  const MinProgressDelta: real := 0.0001

  /** `interpolation_tick_progress` and `last_interp_progress`. */
  datatype Clock = Clock(progress: real, last: real)

  /** The clock right after a tick. */
  const TickClock: Clock := Clock(0.0, 0.0)

  /** The progress the modules see for a raw tick progress. */
  function DelayedProgress(raw: real): (p: real)
    ensures 0.0 <= p <= 1.0
    ensures raw <= InterpDelay ==> p == 0.0
    ensures InterpDelay <= raw <= 1.0 + InterpDelay ==> p == raw - InterpDelay
    ensures raw >= 1.0 + InterpDelay ==> p == 1.0
  {
    Clamp01(raw - InterpDelay)
  }

  /** The clock part of `on_preframe`: the progress is always updated, and
      the frame is accepted when it moved the progress past the deadband. */
  function Advance(c: Clock, raw: real): (r: (Clock, bool))
    ensures r.0.progress == DelayedProgress(raw)
    ensures r.1 <==> DelayedProgress(raw) - c.last > MinProgressDelta
    ensures r.1 ==> r.0.last == r.0.progress && r.0.last > c.last + MinProgressDelta
    ensures !r.1 ==> r.0.last == c.last
  {
    var p := DelayedProgress(raw);
    if p - c.last <= MinProgressDelta then (Clock(p, c.last), false)
    else (Clock(p, p), true)
  }

  /** The clock after a run of pre-frames, with the number accepted. */
  function AdvanceAll(c: Clock, raws: seq<real>): (r: (Clock, nat))
    decreases |raws|
  {
    if |raws| == 0 then (c, 0)
    else
      var (c1, accepted) := Advance(c, raws[0]);
      var (c2, n) := AdvanceAll(c1, raws[1..]);
      (c2, n + if accepted then 1 else 0)
  }

  /** Each accepted frame moves the remembered progress up by more than the
      deadband, and the remembered progress never leaves [0, 1]. */
  lemma {:induction false} AdvanceAllBound(c: Clock, raws: seq<real>)
    requires 0.0 <= c.last <= 1.0
    ensures var (c2, n) := AdvanceAll(c, raws);
            c.last <= c2.last <= 1.0 && c2.last - c.last >= (n as real) * MinProgressDelta
            && (n > 0 ==> c2.last - c.last > (n as real) * MinProgressDelta)
    decreases |raws|
  {
    if |raws| > 0 {
      var (c1, accepted) := Advance(c, raws[0]);
      AdvanceAllBound(c1, raws[1..]);
      var (c2, n) := AdvanceAll(c1, raws[1..]);
      assert AdvanceAll(c, raws) == (c2, n + if accepted then 1 else 0);
    }
  }

  /** Between two ticks at most 9999 frames do any interpolation work,
      however high the frame rate. */
  lemma AcceptedFramesPerTick(raws: seq<real>)
    ensures AdvanceAll(TickClock, raws).1 < 10000
  {
    AdvanceAllBound(TickClock, raws);
  }

  /** Right after a tick, a raw progress up to 0.2501 does no work: the
      delay holds the modules at the previous tick's end state. */
  lemma EarlyFramesDoNothing(raw: real)
    requires raw <= InterpDelay + MinProgressDelta
    ensures !Advance(TickClock, raw).1
  {
  }

  /** The frame's host state that the coordinator's modules read and write. */
  datatype World = World(
    objects: Objects.ObjectTable,
    visible: seq<nat>,
    lights: Lights.LightTable,
    particles: Particles.ParticleTable,
    camera: Vec3)

  datatype Engine = Engine(
    clock: Clock,
    enabled: bool,
    objects: Objects.ObjectState,
    lights: Lights.LightState,
    particles: Particles.ParticleState,
    camera: Camera.CameraState,
    fp: FirstPerson.FpState)
  {
    predicate Valid() {
      objects.Valid() && lights.Valid() && particles.Valid() && camera.Valid() && fp.Valid()
    }
  }

  /** `on_tick`: every module arms its rollover and the clock restarts. */
  function OnTick(e: Engine, paused: bool): (r: Engine)
    ensures paused ==> r == e
    ensures !paused ==>
      r.clock == TickClock && r.objects.tickPassed && r.lights.tickPassed && r.particles.tickPassed
      && r.camera.tickPassed && r.fp.tickPassed
      && r.camera.lastAlpha == 0.0 && r.fp.lastAlpha == 0.0
    ensures r.enabled == e.enabled
    ensures !paused ==>
      && r.objects == Objects.OnTick(e.objects) && r.lights == Lights.OnTick(e.lights)
      && r.particles == Particles.OnTick(e.particles) && r.camera == Camera.OnTick(e.camera)
      && r.fp == FirstPerson.OnTick(e.fp)
  {
    if paused then e
    else
      e.(clock := TickClock,
         fp := FirstPerson.OnTick(e.fp),
         lights := Lights.OnTick(e.lights),
         objects := Objects.OnTick(e.objects),
         camera := Camera.OnTick(e.camera),
         particles := Particles.OnTick(e.particles))
  }

  /** `on_preframe`: the progress update and, on an accepted frame, the light,
      object and particle blends, in that order. */
  function OnPreframe(e: Engine, paused: bool, raw: real, w: World, trig: Trig): (r: (Engine, World))
    requires e.Valid()
    ensures r.0.Valid()
    ensures paused ==> r == (e, w)
    ensures !paused ==> r.0.clock == Advance(e.clock, raw).0
    ensures !paused && !Advance(e.clock, raw).1 ==> r == (e.(clock := r.0.clock), w)
    ensures r.1.visible == w.visible && r.1.camera == w.camera
    ensures 0.0 <= r.0.clock.progress <= 1.0 || r.0.clock == e.clock
    ensures r.0.camera == e.camera && r.0.fp == e.fp && r.0.enabled == e.enabled
    ensures !paused && Advance(e.clock, raw).1 ==>
      var p := DelayedProgress(raw);
      && (r.0.lights, r.1.lights) == Lights.Before(e.lights, w.lights, p)
      && (r.0.objects, r.1.objects) == Objects.Before(e.objects, w.objects, w.visible, Objects.FrameInput(p, w.camera, trig))
      && (r.0.particles, r.1.particles) == Particles.Before(e.particles, w.particles, p)
  {
    if paused then (e, w)
    else
      var (clock, accepted) := Advance(e.clock, raw);
      if !accepted then (e.(clock := clock), w)
      else
        var p := clock.progress;
        var (lights, lightTable) := Lights.Before(e.lights, w.lights, p);
        var (objects, objectTable) :=
          Objects.Before(e.objects, w.objects, w.visible, Objects.FrameInput(p, w.camera, trig));
        var (particles, particleTable) := Particles.Before(e.particles, w.particles, p);
        (e.(clock := clock, lights := lights, objects := objects, particles := particles),
         w.(lights := lightTable, objects := objectTable, particles := particleTable))
  }

  /** `on_frame`: the object and particle restores. Lights have none. */
  function OnFrame(e: Engine, paused: bool, w: World): (r: (Engine, World))
    requires e.Valid()
    ensures r.0.Valid()
    ensures paused ==> r == (e, w)
    ensures r.1.lights == w.lights && r.0.lights == e.lights && r.0.clock == e.clock
    ensures r.0.camera == e.camera && r.0.fp == e.fp && r.0.enabled == e.enabled
    ensures !paused ==>
      (r.0.objects, r.1.objects) == Objects.After(e.objects, w.objects)
      && (r.0.particles, r.1.particles) == Particles.After(e.particles, w.particles)
  {
    if paused then (e, w)
    else
      var (objects, objectTable) := Objects.After(e.objects, w.objects);
      var (particles, particleTable) := Particles.After(e.particles, w.particles);
      (e.(objects := objects, particles := particles), w.(objects := objectTable, particles := particleTable))
  }

  /** The pre-camera event: the camera blend at the coordinator's progress. */
  function PreCamera(e: Engine, input: Camera.CameraInput, cubic: Camera.Cubic): (r: (Engine, Camera.CameraData))
    requires e.Valid()
    ensures r.0.Valid()
    ensures r.0 == e.(camera := r.0.camera)
    ensures !e.enabled ==> r == (e, input.live)
    ensures (r.0.camera, r.1) == Camera.Before(e.camera, input.(progress := e.clock.progress, enabled := e.enabled), cubic)
  {
    var (camera, live) := Camera.Before(e.camera, input.(progress := e.clock.progress, enabled := e.enabled), cubic);
    (e.(camera := camera), live)
  }

  /** The camera event: the camera restore. */
  function PostCamera(e: Engine, input: Camera.CameraInput, live: Camera.CameraData): (r: (Engine, Camera.CameraData))
    requires e.Valid()
    ensures r.0.Valid()
    ensures r.0 == e.(camera := r.0.camera)
    ensures !e.enabled ==> r == (e, live)
    ensures (r.0.camera, r.1) == Camera.After(e.camera, input.(enabled := e.enabled), live)
  {
    var (camera, live') := Camera.After(e.camera, input.(enabled := e.enabled), live);
    (e.(camera := camera), live')
  }

  /** The hooked first-person call: blend before it, restore after it.
      Returns the engine, the nodes the hooked call draws, and the nodes
      left in the live array afterwards. */
  function FirstPersonHook(e: Engine, input: FirstPerson.FpInput, trig: Trig): (r: (Engine, seq<Node>, seq<Node>))
    requires e.Valid() && |input.nodes| == FirstPerson.NodesPerBuffer
    ensures r.0.Valid()
    ensures r.0 == e.(fp := r.0.fp)
    ensures var input' := input.(progress := e.clock.progress, enabled := e.enabled);
            && (r.0.fp, r.1) == FirstPerson.Before(e.fp, input', trig)
            && r.2 == FirstPerson.After(r.0.fp, input', r.1)
  {
    var input := input.(progress := e.clock.progress, enabled := e.enabled);
    var (fp, blended) := FirstPerson.Before(e.fp, input, trig);
    (e.(fp := fp), blended, FirstPerson.After(fp, input, blended))
  }

  /** `clear_buffers`: every module resets; the clock is left as it is. */
  function ClearBuffers(e: Engine): (r: Engine)
    requires e.Valid()
    ensures r.Valid()
    ensures r.clock == e.clock && r.enabled == e.enabled
    ensures r.camera.skip && r.fp.skip && r.fp.revert
    ensures r.lights.Current() == Lights.ZeroGeneration() && r.lights.Previous() == Lights.ZeroGeneration()
    ensures forall j :: 0 <= j < Objects.Capacity ==> !r.objects.Current()[j].interpolate
    ensures forall j :: 0 <= j < Particles.Capacity ==>
      !r.particles.Current()[j].interpolate && !r.particles.Previous()[j].interpolate
    ensures r.objects == Objects.Clear(e.objects) && r.lights == Lights.Clear(e.lights)
    ensures r.particles == Particles.Clear(e.particles)
    ensures r.camera == Camera.Clear(e.camera) && r.fp == FirstPerson.Clear(e.fp)
  {
    e.(objects := Objects.Clear(e.objects),
       particles := Particles.Clear(e.particles),
       lights := Lights.Clear(e.lights),
       camera := Camera.Clear(e.camera),
       fp := FirstPerson.Clear(e.fp))
  }

  // ---------------------------------------------------------------------
  // Properties
  // ---------------------------------------------------------------------

  /** The first accepted frame after a tick captures every module, and the
      frame event that follows gives the object and particle tables back
      unchanged. */
  lemma FrameAfterTickRestores(e: Engine, raw: real, w: World, trig: Trig)
    requires e.Valid()
    requires Advance(TickClock, raw).1
    ensures var (e1, w1) := OnPreframe(OnTick(e, false), false, raw, w, trig);
            var (e2, w2) := OnFrame(e1, false, w1);
            w2.objects == w.objects && w2.particles == w.particles
  {
    var t := OnTick(e, false);
    var p := Advance(t.clock, raw).0.progress;
    var f := Objects.FrameInput(p, w.camera, trig);
    Objects.CaptureBlendThenRestore(t.objects, w.objects, w.visible, f);
    Particles.TickBlendThenRestore(t.particles, w.particles, p);
  }

  /** After a reset, the next accepted frame leaves the light and particle
      tables as they are, and the object table too while every live object
      has a non-zero id. */
  lemma ClearThenFrameBlendsNothing(e: Engine, raw: real, w: World, trig: Trig)
    requires e.Valid()
    ensures var (_, w1) := OnPreframe(ClearBuffers(e), false, raw, w, trig);
            w1.lights == w.lights && w1.particles == w.particles
    ensures (forall j :: 0 <= j < |w.objects| && w.objects[j].Some? ==> w.objects[j].value.id != 0) ==>
              OnPreframe(ClearBuffers(e), false, raw, w, trig).1.objects == w.objects
  {
    var c := ClearBuffers(e);
    if Advance(c.clock, raw).1 {
      var p := DelayedProgress(raw);
      Lights.ClearThenNoBlend(e.lights, w.lights, p);
      Particles.ClearThenNoBlend(e.particles, w.particles, p);
      if forall j :: 0 <= j < |w.objects| && w.objects[j].Some? ==> w.objects[j].value.id != 0 {
        Objects.ClearThenBlendNothing(e.objects, w.objects, w.visible, Objects.FrameInput(p, w.camera, trig));
      }
    }
  }

  /** The camera event gives back the live camera the pre-camera event saw,
      whenever the current generation holds it or that event captured it. */
  lemma CameraEventsRestore(e: Engine, input: Camera.CameraInput, cubic: Camera.Cubic)
    requires e.Valid()
    requires e.camera.Current().data == input.live
             || (e.camera.tickPassed && Camera.Accepted(e.camera, input.(progress := e.clock.progress, enabled := e.enabled)))
    ensures var (e1, shown) := PreCamera(e, input, cubic);
            PostCamera(e1, input, shown).1 == input.live
  {
    var input' := input.(progress := e.clock.progress, enabled := e.enabled);
    Camera.BeforeThenAfterRestores(e.camera, input', cubic);
    var (e1, shown) := PreCamera(e, input, cubic);
    assert Camera.Active(input.(enabled := e.enabled)) == Camera.Active(input');
  }

  /** The hooked first-person call leaves the live nodes as it found them,
      whenever the current generation holds them or the hook captured them. */
  lemma FirstPersonHookRestores(e: Engine, input: FirstPerson.FpInput, trig: Trig)
    requires e.Valid() && |input.nodes| == FirstPerson.NodesPerBuffer
    requires e.fp.Current() == input.nodes
             || (e.fp.tickPassed && FirstPerson.Accepted(e.fp, input.(progress := e.clock.progress, enabled := e.enabled)))
    ensures FirstPersonHook(e, input, trig).2 == input.nodes
  {
    FirstPerson.BeforeThenAfterRestores(e.fp, input.(progress := e.clock.progress, enabled := e.enabled), trig);
  }

  /** A paused game changes nothing at any event. */
  lemma PausedChangesNothing(e: Engine, raw: real, w: World, trig: Trig)
    requires e.Valid()
    ensures OnTick(e, true) == e
    ensures OnPreframe(e, true, raw, w, trig) == (e, w)
    ensures OnFrame(e, true, w) == (e, w)
  {
  }
}
