/** The moving word pills: wall bounces, the box overlap test and the
    velocity-swap collision response with its separation loop. */
module Pills {

  /** Every pill has the same size. */
  const PillWidth: real := 80.0
  const PillHeight: real := 30.0

  /** One axis of a pill's motion: its coordinate and its velocity along it. */
  datatype Axis = Axis(pos: real, vel: real)

  /** A pill's motion on both axes. */
  datatype Motion = Motion(horizontal: Axis, vertical: Axis)

  /** The rectangle a pill covers: top-left corner and size. */
  datatype Box = Box(x: real, y: real, width: real, height: real)

  function Abs(v: real): real {
    if v < 0.0 then -v else v
  }

  /** One axis of `move`: add the velocity, then, if the new coordinate
      touches or passes the near wall, put it on the near wall and reverse
      the velocity, else if the far edge touches or passes the far wall,
      put the far edge on the far wall and reverse the velocity. The
      coordinate stays in the field whenever the pill fits in it, and the
      speed never changes. */
  function Bounce(a: Axis, size: real, extent: real): (r: Axis)
    ensures size <= extent ==> 0.0 <= r.pos <= extent - size
    ensures r.vel == a.vel || r.vel == -a.vel
    ensures Abs(r.vel) == Abs(a.vel)
  {
    var p := a.pos + a.vel;
    if p <= 0.0 then Axis(0.0, -a.vel)
    else if p + size >= extent then Axis(extent - size, -a.vel)
    else Axis(p, a.vel)
  }

  /** One `move` of a pill of the given size in a field of the given size:
      the two axes bounce independently. */
  function Step(m: Motion, width: real, height: real, fieldWidth: real, fieldHeight: real): (r: Motion)
    ensures width <= fieldWidth ==> 0.0 <= r.horizontal.pos <= fieldWidth - width
    ensures height <= fieldHeight ==> 0.0 <= r.vertical.pos <= fieldHeight - height
  {
    Motion(Bounce(m.horizontal, width, fieldWidth), Bounce(m.vertical, height, fieldHeight))
  }

  /** A pill moving right from inside the field that reaches the right
      wall ends exactly on it, moving left. */
  lemma BounceOffFarWall(a: Axis, size: real, extent: real)
    requires 0.0 <= a.pos && 0.0 < a.vel
    requires a.pos + a.vel + size >= extent
    ensures Bounce(a, size, extent) == Axis(extent - size, -a.vel)
    ensures Bounce(a, size, extent).vel < 0.0
  {
  }

  /** A pill that reaches the near wall ends exactly on it, with its
      velocity reversed. */
  lemma BounceOffNearWall(a: Axis, size: real, extent: real)
    requires a.pos + a.vel <= 0.0
    ensures Bounce(a, size, extent) == Axis(0.0, -a.vel)
  {
  }

  /** A step that touches neither wall is plain motion. */
  lemma BounceInterior(a: Axis, size: real, extent: real)
    requires 0.0 < a.pos + a.vel && a.pos + a.vel + size < extent
    ensures Bounce(a, size, extent) == Axis(a.pos + a.vel, a.vel)
  {
  }

  /** The overlap test of `checkCollision`, as the source writes it: the
      boxes are apart when one lies strictly beyond the other on some axis. */
  predicate Overlaps(a: Box, b: Box) {
    !(a.x > b.x + b.width || a.x + a.width < b.x ||
      a.y > b.y + b.height || a.y + a.height < b.y)
  }

  /** The closed rectangle of a box contains the point (px, py). */
  ghost predicate Contains(b: Box, px: real, py: real) {
    b.x <= px <= b.x + b.width && b.y <= py <= b.y + b.height
  }

  /** Two boxes of non-negative size overlap exactly when their closed
      rectangles share a point; so boxes that only touch do overlap. */
  lemma OverlapsIffSharedPoint(a: Box, b: Box)
    requires a.width >= 0.0 && a.height >= 0.0 && b.width >= 0.0 && b.height >= 0.0
    ensures Overlaps(a, b) <==> exists px, py :: Contains(a, px, py) && Contains(b, px, py)
  {
    if Overlaps(a, b) {
      var px := if a.x < b.x then b.x else a.x;
      var py := if a.y < b.y then b.y else a.y;
      assert Contains(a, px, py) && Contains(b, px, py);
    }
  }

  /** The overlap test does not depend on the order of the boxes. */
  lemma OverlapsSymmetric(a: Box, b: Box)
    ensures Overlaps(a, b) == Overlaps(b, a)
  {
  }

  /** Boxes side by side with a common edge overlap. */
  lemma TouchingEdgesOverlap(a: Box, b: Box)
    requires a.width >= 0.0 && a.height >= 0.0 && b.width >= 0.0 && b.height >= 0.0
    requires b.x == a.x + a.width && b.y == a.y
    ensures Overlaps(a, b)
  {
  }

  /** The box after k steps of velocity (vx, vy), with no wall in the way. */
  function Displaced(b: Box, vx: real, vy: real, k: nat): (r: Box)
    ensures r.width == b.width && r.height == b.height
    ensures k == 0 ==> r == b
  {
    Box(b.x + k as real * vx, b.y + k as real * vy, b.width, b.height)
  }

  /** Two boxes moving with the same velocity keep overlapping forever:
      the separation loop of `resolveCollision` never ends for them. */
  lemma SameVelocityNeverSeparates(a: Box, b: Box, vx: real, vy: real, k: nat)
    requires Overlaps(a, b)
    ensures Overlaps(Displaced(a, vx, vy, k), Displaced(b, vx, vy, k))
  {
  }

  /** A pill as a value: its motion and its size. */
  datatype Body = Body(m: Motion, width: real, height: real)

  function BoxOf(b: Body): Box {
    Box(b.m.horizontal.pos, b.m.vertical.pos, b.width, b.height)
  }

  /** `move` on a pill value. */
  function MoveBody(b: Body, fieldWidth: real, fieldHeight: real): Body {
    Body(Step(b.m, b.width, b.height, fieldWidth, fieldHeight), b.width, b.height)
  }

  predicate SameVelocity(a: Body, b: Body) {
    a.m.horizontal.vel == b.m.horizontal.vel && a.m.vertical.vel == b.m.vertical.vel
  }

  /** The position of a, with the velocity of v. */
  function WithVelocity(a: Body, v: Body): Body {
    Body(Motion(Axis(a.m.horizontal.pos, v.m.horizontal.vel), Axis(a.m.vertical.pos, v.m.vertical.vel)), a.width, a.height)
  }

  /** One pass of the separation loop for one pill: a step of its velocity,
      with no wall in the way. */
  function Advance(b: Body): Body {
    Body(Motion(Axis(b.m.horizontal.pos + b.m.horizontal.vel, b.m.horizontal.vel),
                Axis(b.m.vertical.pos + b.m.vertical.vel, b.m.vertical.vel)), b.width, b.height)
  }

  /** The bound on the passes the separation loop has left: the steps left
      along an axis on which the two velocities differ. */
  function SeparationMeasure(a: Body, b: Body): int {
    if a.m.horizontal.vel != b.m.horizontal.vel
    then StepsLeft(a.m.horizontal.pos - b.m.horizontal.pos, a.m.horizontal.vel - b.m.horizontal.vel, -a.width, b.width)
    else StepsLeft(a.m.vertical.pos - b.m.vertical.pos, a.m.vertical.vel - b.m.vertical.vel, -a.height, b.height)
  }

  /** While two overlapping pills with different velocities advance, the
      separation loop's bound is a natural number and drops by one. */
  lemma SeparationProgress(a: Body, b: Body)
    requires Overlaps(BoxOf(a), BoxOf(b)) && !SameVelocity(a, b)
    ensures SeparationMeasure(a, b) >= 0
    ensures SeparationMeasure(Advance(a), Advance(b)) == SeparationMeasure(a, b) - 1
  {
    var a', b' := Advance(a), Advance(b);
    if a.m.horizontal.vel != b.m.horizontal.vel {
      var d, r := a.m.horizontal.pos - b.m.horizontal.pos, a.m.horizontal.vel - b.m.horizontal.vel;
      assert a'.m.horizontal.pos - b'.m.horizontal.pos == d + r;
      StepsLeftDecrease(d, r, -a.width, b.width);
    } else {
      var d, r := a.m.vertical.pos - b.m.vertical.pos, a.m.vertical.vel - b.m.vertical.vel;
      assert a'.m.vertical.pos - b'.m.vertical.pos == d + r;
      StepsLeftDecrease(d, r, -a.height, b.height);
    }
  }

  /** The separation loop of `resolveCollision` on values: both pills
      advance until their boxes no longer overlap. It ends whenever the
      velocities differ, and leaves velocities and sizes alone. */
  function Separate(a: Body, b: Body): (r: (Body, Body))
    requires !SameVelocity(a, b) || !Overlaps(BoxOf(a), BoxOf(b))
    ensures !Overlaps(BoxOf(r.0), BoxOf(r.1))
    ensures r.0.width == a.width && r.0.height == a.height && r.1.width == b.width && r.1.height == b.height
    ensures r.0.m.horizontal.vel == a.m.horizontal.vel && r.0.m.vertical.vel == a.m.vertical.vel
    ensures r.1.m.horizontal.vel == b.m.horizontal.vel && r.1.m.vertical.vel == b.m.vertical.vel
    decreases SeparationMeasure(a, b)
  {
    if Overlaps(BoxOf(a), BoxOf(b)) then
      SeparationProgress(a, b);
      Separate(Advance(a), Advance(b))
    else
      (a, b)
  }

  /** One pass of the separation loop leaves what it computes unchanged. */
  lemma SeparateUnfold(a: Body, b: Body)
    requires Overlaps(BoxOf(a), BoxOf(b)) && !SameVelocity(a, b)
    ensures Separate(a, b) == Separate(Advance(a), Advance(b))
  {
  }

  /** The number of passes the separation loop makes. */
  ghost function SeparationSteps(a: Body, b: Body): nat
    requires !SameVelocity(a, b) || !Overlaps(BoxOf(a), BoxOf(b))
    decreases SeparationMeasure(a, b)
  {
    if Overlaps(BoxOf(a), BoxOf(b)) then
      SeparationProgress(a, b);
      1 + SeparationSteps(Advance(a), Advance(b))
    else
      0
  }

  /** k + 1 steps from a box are k steps from the box one step on. */
  lemma DisplacedShift(b: Box, vx: real, vy: real, k: nat)
    ensures Displaced(Displaced(b, vx, vy, 1), vx, vy, k) == Displaced(b, vx, vy, k + 1)
  {
    assert (k + 1) as real * vx == k as real * vx + vx;
    assert (k + 1) as real * vy == k as real * vy + vy;
  }

  /** The separation loop displaces both boxes by the same number k of
      steps of their own velocities, and k is the first count at which the
      displaced boxes no longer overlap. */
  lemma {:induction false} SeparateDisplaces(a: Body, b: Body)
    requires !SameVelocity(a, b) || !Overlaps(BoxOf(a), BoxOf(b))
    ensures var k, r := SeparationSteps(a, b), Separate(a, b);
      BoxOf(r.0) == Displaced(BoxOf(a), a.m.horizontal.vel, a.m.vertical.vel, k) &&
      BoxOf(r.1) == Displaced(BoxOf(b), b.m.horizontal.vel, b.m.vertical.vel, k) &&
      forall j: nat :: j < k ==>
        Overlaps(Displaced(BoxOf(a), a.m.horizontal.vel, a.m.vertical.vel, j),
                 Displaced(BoxOf(b), b.m.horizontal.vel, b.m.vertical.vel, j))
    decreases SeparationMeasure(a, b)
  {
    if Overlaps(BoxOf(a), BoxOf(b)) {
      SeparationProgress(a, b);
      var a', b' := Advance(a), Advance(b);
      SeparateDisplaces(a', b');
      var k := SeparationSteps(a', b');
      var avx, avy, bvx, bvy := a.m.horizontal.vel, a.m.vertical.vel, b.m.horizontal.vel, b.m.vertical.vel;
      assert BoxOf(a') == Displaced(BoxOf(a), avx, avy, 1);
      assert BoxOf(b') == Displaced(BoxOf(b), bvx, bvy, 1);
      DisplacedShift(BoxOf(a), avx, avy, k);
      DisplacedShift(BoxOf(b), bvx, bvy, k);
      forall j: nat | j < k + 1
        ensures Overlaps(Displaced(BoxOf(a), avx, avy, j), Displaced(BoxOf(b), bvx, bvy, j))
      {
        if j > 0 {
          DisplacedShift(BoxOf(a), avx, avy, j - 1);
          DisplacedShift(BoxOf(b), bvx, bvy, j - 1);
        }
      }
    }
  }

  /** `resolveCollision` on values: the velocities are swapped, then the
      pills are separated. Afterwards each pill moves with the other's old
      velocity, keeps its size, and the two boxes no longer overlap. */
  function Resolve(a: Body, b: Body): (r: (Body, Body))
    requires !SameVelocity(a, b) || !Overlaps(BoxOf(a), BoxOf(b))
    ensures r.0.m.horizontal.vel == b.m.horizontal.vel && r.0.m.vertical.vel == b.m.vertical.vel
    ensures r.1.m.horizontal.vel == a.m.horizontal.vel && r.1.m.vertical.vel == a.m.vertical.vel
    ensures r.0.width == a.width && r.0.height == a.height && r.1.width == b.width && r.1.height == b.height
    ensures !Overlaps(BoxOf(r.0), BoxOf(r.1))
  {
    Separate(WithVelocity(a, b), WithVelocity(b, a))
  }

  /** How many more steps of relative velocity r an offset d can take while
      staying in [lo, hi]; this bounds the separation loop. */
  function StepsLeft(d: real, r: real, lo: real, hi: real): int {
    if r > 0.0 then ((hi - d) / r).Floor
    else if r < 0.0 then ((d - lo) / -r).Floor
    else 0
  }

  /** While the offset is in [lo, hi] and moves, the steps left are a
      natural number, and one step of the offset uses up exactly one. */
  lemma StepsLeftDecrease(d: real, r: real, lo: real, hi: real)
    requires r != 0.0 && lo <= d <= hi
    ensures StepsLeft(d, r, lo, hi) >= 0
    ensures StepsLeft(d + r, r, lo, hi) == StepsLeft(d, r, lo, hi) - 1
  {
    if r > 0.0 {
      DivShift(hi - d, r);
      assert hi - (d + r) == (hi - d) - r;
    } else {
      DivShift(d - lo, -r);
      assert d + r - lo == (d - lo) - -r;
    }
  }

  /** Dividing one step less gives a quotient smaller by one. */
  lemma DivShift(a: real, r: real)
    requires r != 0.0
    ensures (a - r) / r == a / r - 1.0
  {
    assert (a - r) / r == a / r - r / r;
  }

  class WordPill {
    const text: string
    const width: real
    const height: real
    var x: real
    var y: real
    var vx: real
    var vy: real

    /** A pill with the given label at a given place and velocity (the
        source draws both at random). */
    constructor (text: string, x: real, y: real, vx: real, vy: real)
      ensures this.text == text && width == PillWidth && height == PillHeight
      ensures this.x == x && this.y == y && this.vx == vx && this.vy == vy
    {
      this.text := text;
      this.width := PillWidth;
      this.height := PillHeight;
      this.x, this.y := x, y;
      this.vx, this.vy := vx, vy;
    }

    function Bounds(): Box
      reads this
    {
      Box(x, y, width, height)
    }

    /** The pill as a value. */
    function Value(): Body
      reads this
    {
      Body(State(), width, height)
    }

    /** Position and velocity on both axes. */
    function State(): Motion
      reads this
    {
      Motion(Axis(x, vx), Axis(y, vy))
    }

    /** `move` in a field of the given size: each axis bounces on its own. */
    method Move(fieldWidth: real, fieldHeight: real)
      modifies this
      ensures State() == Step(old(State()), width, height, fieldWidth, fieldHeight)
      ensures Axis(x, vx) == Bounce(Axis(old(x), old(vx)), width, fieldWidth)
      ensures Axis(y, vy) == Bounce(Axis(old(y), old(vy)), height, fieldHeight)
    {
      x := x + vx;
      y := y + vy;
      if x <= 0.0 {
        x := 0.0;
        vx := -vx;
      } else if x + width >= fieldWidth {
        x := fieldWidth - width;
        vx := -vx;
      }
      if y <= 0.0 {
        y := 0.0;
        vy := -vy;
      } else if y + height >= fieldHeight {
        y := fieldHeight - height;
        vy := -vy;
      }
    }

    /** `checkCollision`: never with itself; otherwise the boxes overlap.
        The answer does not depend on which of the two pills asks. */
    predicate CheckCollision(other: WordPill): (r: bool)
      reads this, other
      ensures r <==> other != this && Overlaps(other.Bounds(), Bounds())
    {
      this != other && Overlaps(Bounds(), other.Bounds())
    }

    /** One pass of the separation loop for this pill: a step of its
        velocity, with no wall in the way. */
    method Drift()
      modifies this
      ensures Value() == Advance(old(Value()))
    {
      x := x + vx;
      y := y + vy;
    }

    /** `resolveCollision`: swap the two velocities, then step both pills
        by their new velocities, with no wall in the way, until they no
        longer collide. The loop ends whenever the velocities differ or the
        pills do not overlap to begin with (or the pill is asked to resolve
        against itself, where there is no collision). For two pills it
        computes `Resolve`. `steps` is the number of joint steps taken: the
        first count at which the displaced boxes stop overlapping. */
    method ResolveCollision(other: WordPill) returns (ghost steps: nat)
      requires this == other || vx != other.vx || vy != other.vy || !Overlaps(Bounds(), other.Bounds())
      modifies this, other
      ensures this != other ==> (Value(), other.Value()) == Resolve(old(Value()), old(other.Value()))
      ensures vx == old(other.vx) && vy == old(other.vy)
      ensures other.vx == old(vx) && other.vy == old(vy)
      ensures Bounds() == Displaced(old(Bounds()), vx, vy, steps)
      ensures other.Bounds() == Displaced(old(other.Bounds()), other.vx, other.vy, steps)
      ensures !CheckCollision(other)
      ensures forall k: nat :: k < steps ==>
        Overlaps(Displaced(old(Bounds()), vx, vy, k), Displaced(old(other.Bounds()), other.vx, other.vy, k))
    {
      ghost var a, b := Value(), other.Value();
      var tempVx := vx;
      var tempVy := vy;
      vx := other.vx;
      vy := other.vy;
      other.vx := tempVx;
      other.vy := tempVy;

      ghost var a1, b1 := Value(), other.Value();
      assert this != other ==> a1 == WithVelocity(a, b) && b1 == WithVelocity(b, a);
      while CheckCollision(other)
        invariant vx == old(other.vx) && vy == old(other.vy)
        invariant other.vx == old(vx) && other.vy == old(vy)
        invariant this == other ==> Bounds() == old(Bounds())
        invariant this != other ==> !SameVelocity(Value(), other.Value()) || !Overlaps(Bounds(), other.Bounds())
        invariant this != other ==> Separate(Value(), other.Value()) == Separate(a1, b1)
        decreases SeparationMeasure(Value(), other.Value())
      {
        ghost var va, vb := Value(), other.Value();
        SeparationProgress(va, vb);
        SeparateUnfold(va, vb);
        Drift();
        other.Drift();
      }
      if this == other {
        steps := 0;
      } else {
        steps := SeparationSteps(a1, b1);
        SeparateDisplaces(a1, b1);
      }
    }
  }
}
