/** Orientation state of the free-fly camera (struct Camera in main.cpp).

    Mouse movement accumulates scaled offsets into yaw and pitch and clamps
    pitch to [-89, 89] degrees so the view never flips over the poles. The
    front, right and up vectors the source recomputes from yaw and pitch
    with sine and cosine are not part of this model.
 */
module CameraModel {
  import opened Grid
  import opened TerrainMesh

  /** Largest pitch, in degrees, either way. */
  const PitchLimit: real := 89.0

  datatype Camera = Camera(position: Vec3, yaw: real, pitch: real, movementSpeed: real, mouseSensitivity: real) {
    predicate PitchInRange() {
      -PitchLimit <= pitch <= PitchLimit
    }
  }

  /** The constructor's initial state: looking down -Z, level, speed 20,
      sensitivity 0.1. */
  function NewCamera(start: Vec3): (c: Camera)
    ensures c.PitchInRange() && c.position == start
  {
    Camera(start, -90.0, 0.0, 20.0, 0.1)
  }

  /** Where main.cpp places its camera. */
  const StartPosition: Vec3 := Vec3(0.0, 50.0, 100.0)

  /** ProcessMouseMovement: offsets are scaled by the sensitivity and added;
      the new pitch is then clamped first from above, then from below. */
  function ProcessMouseMovement(c: Camera, xoffset: real, yoffset: real): (c': Camera)
    ensures c'.PitchInRange()
    ensures c'.yaw == c.yaw + xoffset * c.mouseSensitivity
    ensures var p := c.pitch + yoffset * c.mouseSensitivity;
            && (-PitchLimit <= p <= PitchLimit ==> c'.pitch == p)
            && (p > PitchLimit ==> c'.pitch == PitchLimit)
            && (p < -PitchLimit ==> c'.pitch == -PitchLimit)
    ensures c'.position == c.position
    ensures c'.movementSpeed == c.movementSpeed && c'.mouseSensitivity == c.mouseSensitivity
  {
    var dx, dy := xoffset * c.mouseSensitivity, yoffset * c.mouseSensitivity;
    var pitch := c.pitch + dy;
    var pitch := if pitch > PitchLimit then PitchLimit else pitch;
    var pitch := if pitch < -PitchLimit then -PitchLimit else pitch;
    c.(yaw := c.yaw + dx, pitch := pitch)
  }

  /** One mouse event's offsets. */
  datatype MouseDelta = MouseDelta(dx: real, dy: real)

  /** Applies the events in order, as the mouse callback does. */
  function ProcessAll(c: Camera, ds: seq<MouseDelta>): Camera
    decreases |ds|
  {
    if ds == [] then c
    else ProcessAll(ProcessMouseMovement(c, ds[0].dx, ds[0].dy), ds[1..])
  }

  /** Sum of the horizontal offsets. */
  function SumDx(ds: seq<MouseDelta>): real
    decreases |ds|
  {
    if ds == [] then 0.0 else ds[0].dx + SumDx(ds[1..])
  }

  /** Over any sequence of events, pitch ends in range (after at least one
      event, or if it started in range), yaw has moved by exactly the scaled
      sum of the horizontal offsets, and nothing else has changed. */
  lemma {:induction false} ProcessAllInvariants(c: Camera, ds: seq<MouseDelta>)
    ensures var c' := ProcessAll(c, ds);
            && (ds != [] || c.PitchInRange() ==> c'.PitchInRange())
            && c'.yaw == c.yaw + c.mouseSensitivity * SumDx(ds)
            && c'.position == c.position
            && c'.movementSpeed == c.movementSpeed && c'.mouseSensitivity == c.mouseSensitivity
    decreases |ds|
  {
    if ds != [] {
      var c1 := ProcessMouseMovement(c, ds[0].dx, ds[0].dy);
      ProcessAllInvariants(c1, ds[1..]);
      assert c.mouseSensitivity * SumDx(ds)
          == ds[0].dx * c.mouseSensitivity + c.mouseSensitivity * SumDx(ds[1..]);
    }
  }

  /** n copies of the same event. */
  function Repeat(d: MouseDelta, n: nat): (ds: seq<MouseDelta>)
    ensures |ds| == n
  {
    if n == 0 then [] else [d] + Repeat(d, n - 1)
  }

  /** s added up n times. */
  function Times(n: nat, s: real): real {
    if n == 0 then 0.0 else s + Times(n - 1, s)
  }

  /** Adding s up n times is multiplying by n. */
  lemma {:induction false} TimesIsProduct(n: nat, s: real)
    ensures Times(n, s) == n as real * s
  {
    if n > 0 {
      TimesIsProduct(n - 1, s);
      assert n as real * s == (n - 1) as real * s + s;
    }
  }

  /** Processing n copies of an event is processing one, then n - 1. */
  lemma RepeatStep(c: Camera, d: MouseDelta, n: nat)
    requires n > 0
    ensures ProcessAll(c, Repeat(d, n)) == ProcessAll(ProcessMouseMovement(c, d.dx, d.dy), Repeat(d, n - 1))
  {
    assert Repeat(d, n)[0] == d && Repeat(d, n)[1..] == Repeat(d, n - 1);
  }

  /** Repeating an upward movement raises pitch linearly until it reaches the
      limit, and then holds it there. */
  lemma {:induction false} RepeatedUpward(c: Camera, dy: real, n: nat)
    requires c.PitchInRange() && 0.0 <= dy * c.mouseSensitivity
    ensures ProcessAll(c, Repeat(MouseDelta(0.0, dy), n)).pitch
            == MinPitch(c.pitch + Times(n, dy * c.mouseSensitivity))
    decreases n
  {
    if n > 0 {
      var s := dy * c.mouseSensitivity;
      var c1 := ProcessMouseMovement(c, 0.0, dy);
      PitchStepUp(c, dy);
      assert c1.mouseSensitivity == c.mouseSensitivity && c1.PitchInRange();
      assert dy * c1.mouseSensitivity == s;
      RepeatStep(c, MouseDelta(0.0, dy), n);
      RepeatedUpward(c1, dy, n - 1);
      TimesNonNegative(n - 1, s);
      MinPitchShift(c.pitch, s, Times(n - 1, s));
    }
  }

  /** One upward step from an in-range pitch only needs the upper clamp. */
  lemma PitchStepUp(c: Camera, dy: real)
    requires c.PitchInRange() && 0.0 <= dy * c.mouseSensitivity
    ensures ProcessMouseMovement(c, 0.0, dy).pitch == MinPitch(c.pitch + dy * c.mouseSensitivity)
  {
  }

  lemma {:induction false} TimesNonNegative(n: nat, s: real)
    requires 0.0 <= s
    ensures 0.0 <= Times(n, s)
  {
    if n > 0 {
      TimesNonNegative(n - 1, s);
    }
  }

  /** Clamping after each of two upward steps is clamping once at the end. */
  lemma MinPitchShift(p: real, s: real, t: real)
    requires 0.0 <= t
    ensures MinPitch(MinPitch(p + s) + t) == MinPitch(p + s + t)
  {
  }

  /** An in-range pitch pushed up by at least the full range is clamped to the limit. */
  lemma MinPitchSaturates(p: real, t: real)
    requires -PitchLimit <= p && 2.0 * PitchLimit <= t
    ensures MinPitch(p + t) == PitchLimit
  {
  }

  /** The upper clamp alone. */
  function MinPitch(p: real): real {
    if p <= PitchLimit then p else PitchLimit
  }

  /** Enough large upward movements leave the camera looking exactly 89
      degrees up, never beyond. */
  lemma UpwardConvergesToLimit(c: Camera, dy: real, n: nat)
    requires c.PitchInRange() && 0.0 <= dy * c.mouseSensitivity
    requires 2.0 * PitchLimit <= Times(n, dy * c.mouseSensitivity)
    ensures ProcessAll(c, Repeat(MouseDelta(0.0, dy), n)).pitch == PitchLimit
  {
    RepeatedUpward(c, dy, n);
    MinPitchSaturates(c.pitch, Times(n, dy * c.mouseSensitivity));
  }
}
