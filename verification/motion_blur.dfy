/** First-person motion blur of the camera's yaw and pitch: the before hook
    shows a smoothed view angle, the after hook puts the raw one back. */
module MotionBlur {
  import MathTrig

  /** `BLUR_STRENGTH`. */
  const Strength: real := 0.15

  /** What remains of a gap after one smoothing step. */
  const Retained: real := 0.85

  /** One angle's memory: the last raw value and the value shown. */
  datatype Axis = Axis(last: real, blurred: real)

  datatype BlurState = BlurState(yaw: Axis, pitch: Axis, initialized: bool)

  const Initial: BlurState := BlurState(Axis(0.0, 0.0), Axis(0.0, 0.0), false)

  /** The angles the hooks read and write. */
  datatype Angles = Angles(yaw: real, pitch: real)

  /** The first frame after start-up or a reset: remember the raw angle and
      show it unchanged. */
  function Seed(raw: real): (a: Axis)
    ensures a.last == raw && a.blurred == raw
  {
    Axis(raw, raw)
  }

  /** The accumulation as the source writes it: the shown angle moves by
      15% of the raw angle's change since the previous frame. */
  function StepAsWritten(a: Axis, raw: real): (r: Axis)
    ensures r.last == raw
    ensures r.blurred - a.blurred == Strength * (raw - a.last)
  {
    Axis(raw, a.blurred + (raw - a.last) * Strength)
  }

  /** The smoothing the blur evidently intends: the shown angle moves 15% of
      the way towards the raw angle, so the gap to the raw angle shrinks by
      a constant factor every frame. */
  function Step(a: Axis, raw: real): (r: Axis)
    ensures r.last == raw
    ensures raw - r.blurred == Retained * (raw - a.blurred)
  {
    Axis(raw, a.blurred + (raw - a.blurred) * Strength)
  }

  /** `fp_motion_blur_before` with the accumulation as written; returns the
      new state and the angles shown. */
  function BeforeAsWritten(st: BlurState, paused: bool, raw: Angles): (r: (BlurState, Angles))
    ensures paused ==> r == (st, raw)
    ensures !paused && !st.initialized ==> r.1 == raw && r.0.initialized
    ensures !paused ==> r.0.yaw.last == raw.yaw && r.0.pitch.last == raw.pitch
    ensures !paused ==> r.0.initialized
    ensures !paused && !st.initialized ==>
      r.0.yaw == Axis(raw.yaw, raw.yaw) && r.0.pitch == Axis(raw.pitch, raw.pitch)
    ensures !paused && st.initialized ==>
      r.1 == Angles(r.0.yaw.blurred, r.0.pitch.blurred)
      && r.0.yaw.blurred - st.yaw.blurred == Strength * (raw.yaw - st.yaw.last)
      && r.0.pitch.blurred - st.pitch.blurred == Strength * (raw.pitch - st.pitch.last)
  {
    if paused then (st, raw)
    else if !st.initialized then (BlurState(Seed(raw.yaw), Seed(raw.pitch), true), raw)
    else
      var y := StepAsWritten(st.yaw, raw.yaw);
      var p := StepAsWritten(st.pitch, raw.pitch);
      (BlurState(y, p, true), Angles(y.blurred, p.blurred))
  }

  /** The before hook with the smoothing step in place of the source's
      accumulation. */
  function BeforeSmoothed(st: BlurState, paused: bool, raw: Angles): (r: (BlurState, Angles))
    ensures paused ==> r == (st, raw)
    ensures !paused && !st.initialized ==> r.1 == raw && r.0.initialized
    ensures !paused ==> r.0.yaw.last == raw.yaw && r.0.pitch.last == raw.pitch
    ensures !paused ==> r.0.initialized
    ensures !paused && !st.initialized ==>
      r.0.yaw == Axis(raw.yaw, raw.yaw) && r.0.pitch == Axis(raw.pitch, raw.pitch)
    ensures !paused && st.initialized ==>
      r.1 == Angles(r.0.yaw.blurred, r.0.pitch.blurred)
      && raw.yaw - r.1.yaw == Retained * (raw.yaw - st.yaw.blurred)
      && raw.pitch - r.1.pitch == Retained * (raw.pitch - st.pitch.blurred)
  {
    if paused then (st, raw)
    else if !st.initialized then (BlurState(Seed(raw.yaw), Seed(raw.pitch), true), raw)
    else
      var y := Step(st.yaw, raw.yaw);
      var p := Step(st.pitch, raw.pitch);
      (BlurState(y, p, true), Angles(y.blurred, p.blurred))
  }

  /** `fp_motion_blur_after`: show the last raw angles again. */
  function After(st: BlurState, paused: bool, shown: Angles): (r: Angles)
    ensures paused ==> r == shown
    ensures !paused ==> r == Angles(st.yaw.last, st.pitch.last)
  {
    if paused then shown else Angles(st.yaw.last, st.pitch.last)
  }

  /** `fp_motion_blur_clear`. */
  function Clear(st: BlurState): (r: BlurState)
    ensures !r.initialized && r.(initialized := st.initialized) == st
  {
    st.(initialized := false)
  }

  // ---------------------------------------------------------------------
  // Properties
  // ---------------------------------------------------------------------

  /** Before then after shows the raw angles again, with either step. */
  lemma BeforeThenAfterRestores(st: BlurState, paused: bool, raw: Angles)
    ensures After(BeforeSmoothed(st, paused, raw).0, paused, BeforeSmoothed(st, paused, raw).1) == raw
    ensures After(BeforeAsWritten(st, paused, raw).0, paused, BeforeAsWritten(st, paused, raw).1) == raw
  {
  }

  /** The last element of a non-empty sequence. */
  function Last(s: seq<real>): real
    requires |s| > 0
  {
    s[|s| - 1]
  }

  /** One axis after a run of frames with the accumulation as written. */
  function RunAsWritten(a: Axis, raws: seq<real>): (r: Axis)
    decreases |raws|
  {
    if |raws| == 0 then a else RunAsWritten(StepAsWritten(a, raws[0]), raws[1..])
  }

  /** One axis after a run of frames with the smoothing step. */
  function Run(a: Axis, raws: seq<real>): (r: Axis)
    decreases |raws|
  {
    if |raws| == 0 then a else Run(Step(a, raws[0]), raws[1..])
  }

  /** The accumulation telescopes: after any run of frames the shown angle
      is the starting one plus 15% of the net raw change, whatever happened
      in between. */
  lemma {:induction false} AsWrittenTelescopes(a: Axis, raws: seq<real>)
    requires |raws| > 0
    ensures RunAsWritten(a, raws).last == Last(raws)
    ensures RunAsWritten(a, raws).blurred == a.blurred + Strength * (Last(raws) - a.last)
    decreases |raws|
  {
    var b := StepAsWritten(a, raws[0]);
    if |raws| > 1 {
      AsWrittenTelescopes(b, raws[1..]);
      assert Last(raws[1..]) == Last(raws);
    }
  }

  /** Counterexample: seeded at 0 and then held at 10 for any number of
      frames, the shown angle stays at 1.5 and never reaches 10. */
  lemma AsWrittenNeverCatchesUp(n: nat)
    requires n > 0
    ensures RunAsWritten(Seed(0.0), seq(n, _ => 10.0)).blurred == 1.5
  {
    var raws := seq(n, _ => 10.0);
    AsWrittenTelescopes(Seed(0.0), raws);
  }

  /** `Retained` to the power `n`. */
  function RetainedPow(n: nat): (r: real)
    ensures 0.0 < r <= 1.0
  {
    if n == 0 then 1.0 else Retained * RetainedPow(n - 1)
  }

  /** With the smoothing step, holding the raw angle still for `n` frames
      shrinks the gap to it by `0.85^n`. */
  lemma {:induction false} SmoothingConverges(a: Axis, raw: real, n: nat)
    ensures raw - Run(a, seq(n, _ => raw)).blurred == RetainedPow(n) * (raw - a.blurred)
    decreases n
  {
    if n > 0 {
      var b := Step(a, raw);
      var held := seq(n, _ => raw);
      assert held[1..] == seq(n - 1, _ => raw);
      assert Run(a, held) == Run(b, seq(n - 1, _ => raw));
      SmoothingConverges(b, raw, n - 1);
      var p := RetainedPow(n - 1);
      var d := raw - a.blurred;
      assert raw - b.blurred == Retained * d;
      assert p * (Retained * d) == (Retained * p) * d;
    }
  }

  /** With the smoothing step and the raw angle held, the gap never grows
      and the shown angle stays on the same side of the raw one. */
  lemma SmoothingApproaches(a: Axis, raw: real, n: nat)
    ensures var g := raw - Run(a, seq(n, _ => raw)).blurred;
            (raw >= a.blurred ==> 0.0 <= g <= raw - a.blurred)
            && (raw <= a.blurred ==> raw - a.blurred <= g <= 0.0)
  {
    SmoothingConverges(a, raw, n);
    var p := RetainedPow(n);
    var d := raw - a.blurred;
    var g := raw - Run(a, seq(n, _ => raw)).blurred;
    assert g == d * p by {
      assert g == p * d;
      assert p * d == d * p;
    }
    MathTrig.ProductBetween(d, p);
  }
}
