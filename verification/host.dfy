/** Types of the host game's live state that the interpolation modules read
    and write. The modules receive these as values instead of touching raw
    memory. */
module Host {
  import opened MathTrig

  datatype Option<T> = None | Some(value: T)

  /** An unsigned 32-bit word of host memory. */
  type Word = w: nat | w < 0x1_0000_0000

  /** One node of a skeleton: the fields a model node and a first-person
      view-model node have in common. */
  datatype Node = Node(scale: real, rotation: Quat, position: Vec3)

  const ZeroQuat: Quat := Quat(0.0, 0.0, 0.0, 0.0)

  /** An all-zero node, as left by clearing a buffer with `memset`. */
  const ZeroNode: Node := Node(0.0, ZeroQuat, Origin)

  /** `interpolate_quat`, `interpolate_point` and the scale blend applied to
      one node. */
  function BlendNode(prev: Node, cur: Node, alpha: real, trig: Trig): (n: Node)
    ensures n.position == Lerp(prev.position, cur.position, alpha)
    ensures n.scale == Mix(prev.scale, cur.scale, alpha)
    ensures n.rotation == QuatBlend(prev.rotation, cur.rotation, alpha, trig)
    ensures alpha == 0.0 ==> n.position == prev.position && n.scale == prev.scale
    ensures alpha == 1.0 ==> n.position == cur.position && n.scale == cur.scale
    ensures prev == cur && Dot(prev.rotation, prev.rotation) == 1.0 && trig.sqrt(1.0) == 1.0 ==> n == prev
  {
    var n := Node(Mix(prev.scale, cur.scale, alpha),
                  QuatBlend(prev.rotation, cur.rotation, alpha, trig),
                  Lerp(prev.position, cur.position, alpha));
    if prev == cur && Dot(prev.rotation, prev.rotation) == 1.0 && trig.sqrt(1.0) == 1.0 then
      QuatBlendSame(prev.rotation, alpha, trig); n
    else n
  }

  /** Whether a sequence starts with another one. */
  predicate IsPrefix<T(==)>(p: seq<T>, s: seq<T>) {
    |p| <= |s| && s[..|p|] == p
  }
}
