/** First-person view-model interpolation: two generations of 128 nodes,
    a skip decision made once per tick from the weapon and a pending revert,
    a per-node blend, and a restore of the current generation afterwards. */
module FirstPerson {
  import opened MathTrig
  import opened Host
  import Roles

  /** Nodes per generation (`NODES_PER_BUFFER`). */
  const NodesPerBuffer: nat := 128

  /** A progress step at or below this is ignored. */
  const MinAlphaDelta: real := 0.0001

  /** The initial value of the remembered weapon word, `~0u`. */
  const NoWeapon: nat := 0xFFFF_FFFF

  /** `first_person_nodes()` as the hooks see it in one frame: the first
      word (zero when there is no view model), the weapon word, and the
      node array. */
  datatype FpInput = FpInput(paused: bool, enabled: bool, progress: real, firstWord: Word, weapon: Word, nodes: seq<Node>)

  predicate Active(input: FpInput) {
    !input.paused && input.enabled
  }

  datatype FpState = FpState(
    buffers: seq<seq<Node>>,
    roles: Roles.Pair,
    skip: bool,
    revert: bool,
    tickPassed: bool,
    lastAlpha: real,
    lastWeapon: Word)
  {
    predicate Valid() {
      roles.Valid() && |buffers| == 2
      && |buffers[0]| == NodesPerBuffer && |buffers[1]| == NodesPerBuffer
    }

    function Current(): seq<Node>
      requires Valid()
    {
      buffers[roles.current]
    }

    function Previous(): seq<Node>
      requires Valid()
    {
      buffers[roles.previous]
    }
  }

  function ZeroNodes(): (r: seq<Node>)
    ensures |r| == NodesPerBuffer
    ensures forall i :: 0 <= i < |r| ==> r[i] == ZeroNode
  {
    seq(NodesPerBuffer, _ => ZeroNode)
  }

  const Initial: FpState := FpState([ZeroNodes(), ZeroNodes()], Roles.Initial, false, false, false, 0.0, NoWeapon)

  /** Whether a capture decides to skip the coming tick: no view model, a
      weapon change, or a revert since the last capture. */
  predicate CaptureSkips(st: FpState, input: FpInput) {
    input.firstWord == 0 || st.lastWeapon != input.weapon || st.revert
  }

  /** The rollover: skip decision, role swap, and a copy of the live nodes. */
  function Capture(st: FpState, input: FpInput): (r: FpState)
    requires st.Valid() && |input.nodes| == NodesPerBuffer
    ensures r.Valid()
    ensures r.skip <==> CaptureSkips(st, input)
    ensures !r.revert && !r.tickPassed
    ensures r.lastWeapon == input.weapon
    ensures r.roles == st.roles.Swap()
    ensures r.Current() == input.nodes && r.Previous() == st.Current()
    ensures r.lastAlpha == st.lastAlpha
  {
    var skip := input.firstWord == 0 || st.lastWeapon != input.weapon;
    var skip := if st.revert then true else skip;
    var roles := st.roles.Swap();
    st.(skip := skip, revert := false, roles := roles, lastWeapon := input.weapon, tickPassed := false,
        buffers := st.buffers[roles.current := input.nodes])
  }

  /** The blended view model: node `i` between the two generations. */
  function BlendAll(prev: seq<Node>, cur: seq<Node>, alpha: real, trig: Trig): (r: seq<Node>)
    requires |prev| == NodesPerBuffer && |cur| == NodesPerBuffer
    ensures |r| == NodesPerBuffer
    ensures forall i :: 0 <= i < NodesPerBuffer ==> r[i] == BlendNode(prev[i], cur[i], alpha, trig)
  {
    seq(NodesPerBuffer, i requires 0 <= i < NodesPerBuffer => BlendNode(prev[i], cur[i], alpha, trig))
  }

  /** Whether this frame's before hook gets past the pause and deadband checks. */
  predicate Accepted(st: FpState, input: FpInput) {
    Active(input) && Clamp01(input.progress) - st.lastAlpha > MinAlphaDelta
  }

  /** `interpolate_fp_before`, returning the new state and the live nodes. */
  function Before(st: FpState, input: FpInput, trig: Trig): (r: (FpState, seq<Node>))
    requires st.Valid() && |input.nodes| == NodesPerBuffer
    ensures r.0.Valid() && |r.1| == NodesPerBuffer
    ensures !Accepted(st, input) ==> r == (st, input.nodes)
    ensures Accepted(st, input) ==> r.0.lastAlpha == Clamp01(input.progress) && !r.0.tickPassed
    ensures Accepted(st, input) && st.tickPassed ==>
      r.0.skip == CaptureSkips(st, input) && r.0.Current() == input.nodes && r.0.Previous() == st.Current()
    ensures Accepted(st, input) && st.tickPassed ==>
      && r.0.lastWeapon == input.weapon && !r.0.revert && r.0.roles == st.roles.Swap()
      && r.0 == Capture(st.(lastAlpha := Clamp01(input.progress)), input)
    ensures Accepted(st, input) && !st.tickPassed ==> r.0 == st.(lastAlpha := r.0.lastAlpha)
    ensures r.0.skip ==> r.1 == input.nodes
    ensures !r.0.skip && Accepted(st, input) ==>
      r.1 == BlendAll(r.0.Previous(), r.0.Current(), Clamp01(input.progress), trig)
  {
    if !Accepted(st, input) then (st, input.nodes)
    else
      var alpha := Clamp01(input.progress);
      var s := st.(lastAlpha := alpha);
      var s := if s.tickPassed then Capture(s, input) else s;
      if s.skip then (s, input.nodes)
      else (s, BlendAll(s.Previous(), s.Current(), alpha, trig))
  }

  /** `interpolate_fp_after`: copy the current generation back. */
  function After(st: FpState, input: FpInput, live: seq<Node>): (r: seq<Node>)
    requires st.Valid()
    ensures !st.skip && Active(input) ==> r == st.Current()
    ensures st.skip || !Active(input) ==> r == live
  {
    if !st.skip && Active(input) then st.Current() else live
  }

  /** `interpolate_fp_clear`. The remembered weapon survives. */
  function Clear(st: FpState): (r: FpState)
    requires st.Valid()
    ensures r.Valid()
    ensures r.skip && r.revert && r.lastAlpha == 0.0
    ensures r.Current() == ZeroNodes() && r.Previous() == ZeroNodes()
    ensures r.roles == st.roles && r.tickPassed == st.tickPassed && r.lastWeapon == st.lastWeapon
  {
    st.(skip := true, revert := true, lastAlpha := 0.0, buffers := [ZeroNodes(), ZeroNodes()])
  }

  /** `interpolate_fp_on_tick`. */
  function OnTick(st: FpState): (r: FpState)
    ensures r.tickPassed && r.lastAlpha == 0.0
    ensures r.(tickPassed := st.tickPassed, lastAlpha := st.lastAlpha) == st
  {
    st.(tickPassed := true, lastAlpha := 0.0)
  }

  // ---------------------------------------------------------------------
  // Properties
  // ---------------------------------------------------------------------

  /** Before then after gives the live view model back, whenever the current
      generation holds it or this frame captures it. */
  lemma BeforeThenAfterRestores(st: FpState, input: FpInput, trig: Trig)
    requires st.Valid() && |input.nodes| == NodesPerBuffer
    requires st.Current() == input.nodes || (st.tickPassed && Accepted(st, input))
    ensures After(Before(st, input, trig).0, input, Before(st, input, trig).1) == input.nodes
  {
  }

  /** A reset between ticks keeps the view model still for the rest of the
      tick and for the whole tick after the next capture. */
  lemma ClearSkipsThroughNextTick(st: FpState, input: FpInput, next: FpInput, trig: Trig)
    requires st.Valid() && !st.tickPassed
    requires |input.nodes| == NodesPerBuffer && |next.nodes| == NodesPerBuffer
    ensures Before(Clear(st), input, trig).1 == input.nodes
    ensures Before(OnTick(Before(Clear(st), input, trig).0), next, trig).1 == next.nodes
  {
  }

  /** A reset while a tick is pending spends its revert on that tick's
      capture, so the revert does not reach the capture after it. */
  lemma ClearWithPendingTickSkipsOneTick(st: FpState, input: FpInput, trig: Trig)
    requires st.Valid() && st.tickPassed && |input.nodes| == NodesPerBuffer
    requires Accepted(Clear(st), input)
    ensures Before(Clear(st), input, trig).0.skip
    ensures !Before(Clear(st), input, trig).0.revert
  {
  }

  /** A changed weapon word always skips the tick; with the same weapon, a
      view model present and no revert pending, the tick is blended. */
  lemma WeaponDecidesSkip(st: FpState, input: FpInput)
    requires st.Valid() && |input.nodes| == NodesPerBuffer
    ensures input.weapon != st.lastWeapon ==> Capture(st, input).skip
    ensures input.weapon == st.lastWeapon && input.firstWord != 0 && !st.revert ==> !Capture(st, input).skip
  {
  }

  /** The first capture after start-up skips unless the weapon word is all ones. */
  lemma FirstCaptureSkips(input: FpInput)
    requires |input.nodes| == NodesPerBuffer && input.weapon != NoWeapon
    ensures Capture(Initial, input).skip
  {
  }
}
