/** Camera interpolation: three generations of camera snapshots (two of
    history plus the current one), a cubic blend of the position and, for
    some camera kinds, of the orientation, and a restore after the camera
    event. */
module Camera {
  import opened MathTrig
  import opened Host
  import Roles

  /** A progress step at or below this is ignored (`MIN_ALPHA_DELTA`). */
  const MinAlphaDelta: real := 0.0001

  /** A first-person camera that moved further than 5 units (squared: 25)
      between ticks is not interpolated. */
  const MaxJump2: real := 25.0

  /** The host's camera kinds in declaration order; a zeroed buffer holds
      the first one. */
  datatype CameraType = FirstPerson | VehicleCamera | Cinematic | DebugCamera

  /** An object id; `NullRef` is the host's null id, a zeroed buffer holds 0. */
  type ObjectRef = nat
  const NullRef: ObjectRef := 0xFFFF_FFFF

  /** The host camera record: position and the two orientation vectors. */
  datatype CameraData = CameraData(position: Vec3, forward: Vec3, up: Vec3)

  datatype CameraSnapshot = CameraSnapshot(kind: CameraType, followed: ObjectRef, data: CameraData)

  const ZeroSnapshot: CameraSnapshot := CameraSnapshot(FirstPerson, 0, CameraData(Origin, Origin, Origin))

  /** The cubic curve through four control points, evaluated at a parameter;
      it is not part of this model and enters as a parameter. */
  type Cubic = (Vec3, Vec3, Vec3, Vec3, real) -> Vec3

  datatype CameraState = CameraState(
    buffers: seq<CameraSnapshot>,
    roles: Roles.Triple,
    tickPassed: bool,
    skip: bool,
    rollback: bool,
    lastAlpha: real)
  {
    predicate Valid() {
      roles.Valid() && |buffers| == 3
    }

    function Prev2(): CameraSnapshot
      requires Valid()
    {
      buffers[roles.prev2]
    }

    function Prev1(): CameraSnapshot
      requires Valid()
    {
      buffers[roles.prev1]
    }

    function Current(): CameraSnapshot
      requires Valid()
    {
      buffers[roles.current]
    }
  }

  const Initial: CameraState :=
    CameraState([ZeroSnapshot, ZeroSnapshot, ZeroSnapshot], Roles.InitialTriple, false, false, false, 0.0)

  /** The local player's object, when both the player and its object exist. */
  datatype ClientObject = ClientObject(parented: bool, health: real)

  /** Everything the camera hooks read from the host in one frame. */
  datatype CameraInput = CameraInput(
    paused: bool,
    enabled: bool,
    progress: real,
    kind: CameraType,
    followed: ObjectRef,
    live: CameraData,
    client: Option<ClientObject>,
    spectate: bool)

  predicate Active(input: CameraInput) {
    !input.paused && input.enabled
  }

  /** The capture-time skip decision: a cinematic camera without a followed
      object, a change of followed object or of camera kind, or a first-person
      camera that jumped. */
  predicate CaptureSkips(cur: CameraSnapshot, prev1: CameraSnapshot) {
    || (cur.kind == Cinematic && cur.followed == NullRef)
    || cur.followed != prev1.followed
    || cur.kind != prev1.kind
    || (cur.kind == FirstPerson && DistanceSquared(prev1.data.position, cur.data.position) > MaxJump2)
  }

  /** Rotate the three roles and capture the live camera into the recycled
      buffer. */
  function Capture(st: CameraState, input: CameraInput): (r: CameraState)
    requires st.Valid()
    ensures r.Valid()
    ensures r.roles == st.roles.Rotate()
    ensures r.Current() == CameraSnapshot(input.kind, input.followed, input.live)
    ensures r.Prev1() == st.Current() && r.Prev2() == st.Prev1()
    ensures !r.tickPassed && !r.rollback && r.lastAlpha == st.lastAlpha
    ensures r.skip <==> CaptureSkips(r.Current(), r.Prev1())
  {
    var roles := st.roles.Rotate();
    var cur := CameraSnapshot(input.kind, input.followed, input.live);
    var skip := (input.kind == Cinematic && cur.followed == NullRef)
                || (cur.followed != st.Current().followed || cur.kind != st.Current().kind);
    var skip := if !skip && input.kind == FirstPerson
                then DistanceSquared(st.Current().data.position, cur.data.position) > MaxJump2
                else skip;
    st.(buffers := st.buffers[roles.current := cur], roles := roles,
        tickPassed := false, rollback := false, skip := skip)
  }

  /** The debug camera is left alone while the client's object is alive. */
  predicate DebugAlive(input: CameraInput) {
    input.kind == DebugCamera && input.client.Some? && input.client.value.health >= 0.0
  }

  /** Whether the orientation is blended: every camera except the plain
      first-person one, which is blended only in a vehicle or while
      spectating. */
  predicate BlendsOrientation(input: CameraInput) {
    var vehicleFirstPerson := (input.kind == FirstPerson || input.kind == DebugCamera)
                              && input.client.Some? && input.client.value.parented;
    input.kind != FirstPerson || vehicleFirstPerson || input.spectate
  }

  /** `interpolate_camera_before`, returning the new state and the live
      camera. */
  function Before(st: CameraState, input: CameraInput, cubic: Cubic): (r: (CameraState, CameraData))
    requires st.Valid()
    ensures r.0.Valid()
    ensures !Active(input) ==> r == (st, input.live)
    ensures Clamp01(input.progress) - st.lastAlpha <= MinAlphaDelta ==> r == (st, input.live)
    ensures r.0.lastAlpha >= st.lastAlpha
    ensures r.0.lastAlpha != st.lastAlpha ==> r.0.lastAlpha == Clamp01(input.progress)
    ensures r.0.skip ==> r.1 == input.live
    ensures r.1 != input.live ==> Active(input) && r.0.lastAlpha == Clamp01(input.progress)
    ensures !BlendsOrientation(input) ==> r.1.forward == input.live.forward && r.1.up == input.live.up
    ensures r.0.tickPassed ==> r.0 == st
    ensures Accepted(st, input) && st.tickPassed ==>
      r.0.roles == st.roles.Rotate() && r.0.Prev1() == st.Current() && r.0.Prev2() == st.Prev1()
      && r.0.Current() == CameraSnapshot(input.kind, input.followed, input.live)
    ensures Accepted(st, input) && !st.tickPassed ==> r.0.buffers == st.buffers && r.0.roles == st.roles
    ensures Accepted(st, input) && DebugAlive(input) ==> r.0.skip && r.1 == input.live
    ensures Accepted(st, input) ==>
      (r.0.skip <==> (if st.tickPassed then CaptureSkips(r.0.Current(), r.0.Prev1()) else st.skip)
                     || DebugAlive(input))
    ensures Accepted(st, input) ==> r.0.lastAlpha == Clamp01(input.progress)
    ensures r.0.rollback <==>
      (Accepted(st, input) && !r.0.skip && BlendsOrientation(input))
      || (st.rollback && !(Accepted(st, input) && st.tickPassed))
    ensures Accepted(st, input) && !r.0.skip ==>
      var (p2, p1, c) := (r.0.Prev2().data, r.0.Prev1().data, r.0.Current().data);
      var alpha := Clamp01(input.progress);
      && r.1.position == cubic(p2.position, p1.position, c.position, c.position, alpha)
      && (BlendsOrientation(input) ==>
            r.0.rollback
            && r.1.forward == cubic(p2.forward, p1.forward, c.forward, c.forward, alpha)
            && r.1.up == cubic(p2.up, p1.up, c.up, c.up, alpha))
  {
    if !Active(input) then (st, input.live)
    else
      var alpha := Clamp01(input.progress);
      if alpha - st.lastAlpha <= MinAlphaDelta then (st, input.live)
      else
        var s := st.(lastAlpha := alpha);
        var s := if s.tickPassed then Capture(s, input) else s;
        if s.skip then (s, input.live)
        else if DebugAlive(input) then (s.(skip := true), input.live)
        else
          var p2 := s.Prev2().data;
          var p1 := s.Prev1().data;
          var c := s.Current().data;
          var live := input.live.(position := cubic(p2.position, p1.position, c.position, c.position, alpha));
          if BlendsOrientation(input) then
            (s.(rollback := true),
             live.(forward := cubic(p2.forward, p1.forward, c.forward, c.forward, alpha),
                   up := cubic(p2.up, p1.up, c.up, c.up, alpha)))
          else (s, live)
  }

  /** `interpolate_camera_after`: put the current generation's position
      back, and the orientation when it was blended. */
  function After(st: CameraState, input: CameraInput, live: CameraData): (r: (CameraState, CameraData))
    requires st.Valid()
    ensures r.0.Valid()
    ensures st.skip || !Active(input) ==> r == (st, live)
    ensures !st.skip && Active(input) ==> r.1.position == st.Current().data.position
    ensures !st.skip && Active(input) && st.rollback ==>
      r.1.forward == st.Current().data.forward && r.1.up == st.Current().data.up
    ensures !st.rollback ==> r.1.forward == live.forward && r.1.up == live.up
    ensures !r.0.rollback
            || ((st.skip || !Active(input)) && st.rollback)
    ensures r.0 == st.(rollback := r.0.rollback)
  {
    if st.skip || !Active(input) then (st, live)
    else
      var live := live.(position := st.Current().data.position);
      if st.rollback then
        (st.(rollback := false), live.(forward := st.Current().data.forward, up := st.Current().data.up))
      else (st, live)
  }

  /** `interpolate_camera_clear`: the roles stay where they are. */
  function Clear(st: CameraState): (r: CameraState)
    requires st.Valid()
    ensures r.Valid()
    ensures r.skip && !r.rollback && r.lastAlpha == 0.0
    ensures r.Prev2() == ZeroSnapshot && r.Prev1() == ZeroSnapshot && r.Current() == ZeroSnapshot
    ensures r.roles == st.roles && r.tickPassed == st.tickPassed
  {
    st.(skip := true, rollback := false, lastAlpha := 0.0, buffers := [ZeroSnapshot, ZeroSnapshot, ZeroSnapshot])
  }

  /** `interpolate_camera_on_tick`. */
  function OnTick(st: CameraState): (r: CameraState)
    ensures r.tickPassed && r.lastAlpha == 0.0
    ensures r.(tickPassed := st.tickPassed, lastAlpha := st.lastAlpha) == st
  {
    st.(tickPassed := true, lastAlpha := 0.0)
  }

  // ---------------------------------------------------------------------
  // Properties
  // ---------------------------------------------------------------------

  /** Whether this frame's before hook gets past the pause and deadband checks. */
  predicate Accepted(st: CameraState, input: CameraInput) {
    Active(input) && Clamp01(input.progress) - st.lastAlpha > MinAlphaDelta
  }

  /** Before then after gives the live camera back, whenever the current
      generation holds the live camera or this frame captures it. */
  lemma BeforeThenAfterRestores(st: CameraState, input: CameraInput, cubic: Cubic)
    requires st.Valid()
    requires st.Current().data == input.live || (st.tickPassed && Accepted(st, input))
    ensures After(Before(st, input, cubic).0, input, Before(st, input, cubic).1).1 == input.live
  {
    var (s1, l1) := Before(st, input, cubic);
    if Accepted(st, input) {
      assert s1.Current().data == input.live;
    }
  }

  /** The restore does not depend on the before hook having done anything:
      on a frame after a tick whose progress the deadband rejects, no
      capture happens and the restore still writes the previous capture's
      position into the live camera. */
  lemma DeadbandAfterTickRestoresPreviousCapture(st: CameraState, input: CameraInput, cubic: Cubic)
    requires st.Valid() && st.tickPassed && !st.skip && Active(input)
    requires !Accepted(st, input)
    ensures Before(st, input, cubic).0 == st
    ensures After(st, input, Before(st, input, cubic).1).1.position == st.Current().data.position
  {
  }

  /** A restore with nothing pending clears the pending orientation restore. */
  lemma AfterConsumesRollback(st: CameraState, input: CameraInput, live: CameraData)
    requires st.Valid() && !st.skip && Active(input)
    ensures !After(st, input, live).0.rollback
  {
  }

  /** After a reset nothing is blended until the next tick's capture. */
  lemma ClearThenNoBlendUntilTick(st: CameraState, input: CameraInput, cubic: Cubic)
    requires st.Valid() && !st.tickPassed
    ensures Before(Clear(st), input, cubic).1 == input.live
    ensures Before(Clear(st), input, cubic).0.skip
  {
  }

  /** A camera that keeps its kind and followed object and, in first person,
      moves at most 5 units between ticks is interpolated. */
  lemma SteadyCameraIsInterpolated(st: CameraState, input: CameraInput)
    requires st.Valid()
    requires input.followed == st.Current().followed && input.kind == st.Current().kind
    requires !(input.kind == Cinematic && input.followed == NullRef)
    requires input.kind == FirstPerson ==> DistanceSquared(st.Current().data.position, input.live.position) <= MaxJump2
    ensures !Capture(st, input).skip
  {
  }

  /** Any change of camera kind across a tick disables interpolation until
      the next tick. */
  lemma KindChangeSkips(st: CameraState, input: CameraInput)
    requires st.Valid()
    requires input.kind != st.Current().kind
    ensures Capture(st, input).skip
  {
  }

  /** Within one tick the deadband makes the accepted alphas strictly
      increasing, each by more than the deadband; a frame that is not
      accepted leaves the remembered alpha alone. */
  lemma AcceptedAlphaAdvances(st: CameraState, input: CameraInput, cubic: Cubic)
    requires st.Valid()
    ensures Accepted(st, input) ==> Before(st, input, cubic).0.lastAlpha > st.lastAlpha + MinAlphaDelta
    ensures !Accepted(st, input) ==> Before(st, input, cubic).0.lastAlpha == st.lastAlpha
  {
  }
}
