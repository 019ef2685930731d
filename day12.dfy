/** The moons of src/bin/day12.rs: gravity pulls every pair of bodies one
    unit toward each other on each axis, then every body moves by its
    velocity. The three axes are independent, which is what the period
    search of part 2 relies on. */
module Day12 {
  import opened Wrappers
  import opened RustInt

  datatype Vector = Vector(x: int, y: int, z: int)
  datatype Body = Body(position: Vector, velocity: Vector)
  datatype Body1d = Body1d(position: int, velocity: int)
  datatype Axis = X | Y | Z

  const Zero := Vector(0, 0, 0)

  function Component(v: Vector, a: Axis): int {
    match a
    case X => v.x
    case Y => v.y
    case Z => v.z
  }

  /** `Add` and `AddAssign`: component by component. */
  function Plus(a: Vector, b: Vector): (r: Vector)
    ensures forall ax: Axis :: Component(r, ax) == Component(a, ax) + Component(b, ax)
  {
    Vector(a.x + b.x, a.y + b.y, a.z + b.z)
  }

  /** `Body::new`: at rest at `(x, y, z)`. */
  function NewBody(x: int, y: int, z: int): Body {
    Body(Vector(x, y, z), Zero)
  }

  // ---------------------------------------------------------------- energy

  /** `Vector::energy`: the sum of the absolute components. */
  function Energy(v: Vector): (e: nat)
    ensures e == 0 <==> v == Zero
    ensures forall ax: Axis :: Abs(Component(v, ax)) <= e
  {
    Abs(v.x) + Abs(v.y) + Abs(v.z)
  }

  /** `Body::get_energy`: potential times kinetic energy. */
  function GetEnergy(b: Body): (e: nat)
    ensures e == 0 <==> b.position == Zero || b.velocity == Zero
  {
    var potential, kinetic := Energy(b.position), Energy(b.velocity);
    ProductZero(potential, kinetic);
    potential * kinetic
  }

  lemma ProductZero(a: nat, b: nat)
    ensures a * b >= 0
    ensures a * b == 0 <==> a == 0 || b == 0
  {
    if a > 0 && b > 0 {
      MulGrows(a, b);
    }
  }

  function TotalEnergy(bodies: seq<Body>): nat {
    if bodies == [] then 0 else TotalEnergy(bodies[..|bodies| - 1]) + GetEnergy(bodies[|bodies| - 1])
  }

  // --------------------------------------------------------------- gravity

  /** The velocity change one body at `p` gets from one at `q`. */
  function Pull(p: int, q: int): (d: int)
    ensures d == 1 <==> p < q
    ensures d == 0 <==> p == q
    ensures d == -1 <==> p > q
  {
    if p < q then 1 else if p == q then 0 else -1
  }

  lemma PullAntisymmetric(p: int, q: int)
    ensures Pull(p, q) == -Pull(q, p)
  {
  }

  /** `get_gravity_adjustment`: `Pull` on each axis. */
  function GravityAdjustment(self: Vector, other: Vector): (r: Vector)
    ensures forall ax: Axis :: Component(r, ax) == Pull(Component(self, ax), Component(other, ax))
  {
    Vector(Pull(self.x, other.x), Pull(self.y, other.y), Pull(self.z, other.z))
  }

  /** The adjustments of a pair of bodies cancel. */
  lemma GravityAdjustmentAntisymmetric(a: Vector, b: Vector)
    ensures Plus(GravityAdjustment(a, b), GravityAdjustment(b, a)) == Zero
  {
  }

  // ------------------------------------------------------------ one axis

  function Positions(s: seq<Body1d>): (ps: seq<int>)
    ensures |ps| == |s| && forall k | 0 <= k < |s| :: ps[k] == s[k].position
  {
    seq(|s|, k requires 0 <= k < |s| => s[k].position)
  }

  /** The pull on body `i` from the bodies `0 .. m` other than itself. */
  function GravityOn(ps: seq<int>, i: nat, m: nat): int
    requires i < |ps| && m <= |ps|
  {
    if m == 0 then 0
    else GravityOn(ps, i, m - 1) + (if m - 1 == i then 0 else Pull(ps[i], ps[m - 1]))
  }

  /** The state after one `step_1d`: each velocity changes by the pull of
      every other body at its old position, then each body moves by its new
      velocity. */
  function Step1dSpec(s: seq<Body1d>): (r: seq<Body1d>)
    ensures |r| == |s|
  {
    seq(|s|, i requires 0 <= i < |s| => Stepped1d(s, i))
  }

  /** Body `i` after one `step_1d`. */
  function Stepped1d(s: seq<Body1d>, i: nat): Body1d
    requires i < |s|
  {
    var v := s[i].velocity + GravityOn(Positions(s), i, |s|);
    Body1d(s[i].position + v, v)
  }

  /** `step_1d`, in place: first every velocity, then every position. */
  method Step1d(bodies: array<Body1d>)
    modifies bodies
    ensures bodies[..] == Step1dSpec(old(bodies[..]))
  {
    ghost var s := bodies[..];
    Gravitate1d(bodies);
    Move1d(bodies, s);
    MovedAll1d(bodies[..], s);
  }

  /** The first loop of `step_1d`. */
  method Gravitate1d(bodies: array<Body1d>)
    modifies bodies
    ensures Moved1d(bodies[..], old(bodies[..]), 0)
  {
    ghost var s := bodies[..];
    var n := bodies.Length;
    for i := 0 to n
      invariant Pulled1d(bodies[..], s, i, 0)
    {
      PullOne1d(bodies, i, s);
    }
    PulledAll1d(bodies[..], s);
  }

  /** One pass of the inner loop: body `i` is pulled toward every other. */
  method PullOne1d(bodies: array<Body1d>, i: nat, ghost s: seq<Body1d>)
    requires i < |s| && Pulled1d(bodies[..], s, i, 0)
    modifies bodies
    ensures Pulled1d(bodies[..], s, i + 1, 0)
  {
    var n := bodies.Length;
    for j := 0 to n
      invariant Pulled1d(bodies[..], s, i, j)
    {
      if i != j {
        var otherPos := bodies[j].position;
        ghost var b := bodies[..];
        bodies[i] := bodies[i].(velocity := bodies[i].velocity + Pull(bodies[i].position, otherPos));
        PullStep1d(b, bodies[..], s, i, j);
      } else {
        PullSkip1d(bodies[..], s, i);
      }
    }
    PulledNext1d(bodies[..], s, i);
  }

  /** The second loop of `step_1d`. */
  method Move1d(bodies: array<Body1d>, ghost s: seq<Body1d>)
    requires Moved1d(bodies[..], s, 0)
    modifies bodies
    ensures Moved1d(bodies[..], s, |s|)
  {
    var n := bodies.Length;
    for i := 0 to n
      invariant Moved1d(bodies[..], s, i)
    {
      ghost var b := bodies[..];
      bodies[i] := bodies[i].(position := bodies[i].position + bodies[i].velocity);
      MoveStep1d(b, bodies[..], s, i);
    }
  }

  /** The first loop of `step_1d` has updated the velocities of bodies
      `0 .. i` and pulled body `i` toward bodies `0 .. j`. */
  ghost predicate Pulled1d(b: seq<Body1d>, s: seq<Body1d>, i: nat, j: nat)
  {
    && |b| == |s| && i <= |s| && j <= |s|
    && (forall k | 0 <= k < |s| :: b[k].position == s[k].position)
    && (forall k | 0 <= k < i :: b[k].velocity == s[k].velocity + GravityOn(Positions(s), k, |s|))
    && (forall k | i < k < |s| :: b[k] == s[k])
    && (i < |s| ==> b[i].velocity == s[i].velocity + GravityOn(Positions(s), i, j))
  }

  lemma PullStep1d(b: seq<Body1d>, b': seq<Body1d>, s: seq<Body1d>, i: nat, j: nat)
    requires Pulled1d(b, s, i, j) && i < |s| && j < |s| && i != j
    requires b' == b[i := b[i].(velocity := b[i].velocity + Pull(b[i].position, b[j].position))]
    ensures Pulled1d(b', s, i, j + 1)
  {
  }

  lemma PullSkip1d(b: seq<Body1d>, s: seq<Body1d>, i: nat)
    requires Pulled1d(b, s, i, i) && i < |s|
    ensures Pulled1d(b, s, i, i + 1)
  {
  }

  lemma PulledNext1d(b: seq<Body1d>, s: seq<Body1d>, i: nat)
    requires i < |s| && Pulled1d(b, s, i, |s|)
    ensures Pulled1d(b, s, i + 1, 0)
  {
  }

  lemma PulledAll1d(b: seq<Body1d>, s: seq<Body1d>)
    requires Pulled1d(b, s, |s|, 0)
    ensures Moved1d(b, s, 0)
  {
  }

  /** The second loop of `step_1d` has moved bodies `0 .. i`. */
  ghost predicate Moved1d(b: seq<Body1d>, s: seq<Body1d>, i: nat)
  {
    && |b| == |s| && i <= |s|
    && (forall k | 0 <= k < i :: b[k] == Stepped1d(s, k))
    && (forall k | i <= k < |s| :: b[k] == Body1d(s[k].position, s[k].velocity + GravityOn(Positions(s), k, |s|)))
  }

  lemma MoveStep1d(b: seq<Body1d>, b': seq<Body1d>, s: seq<Body1d>, i: nat)
    requires Moved1d(b, s, i) && i < |s|
    requires b' == b[i := b[i].(position := b[i].position + b[i].velocity)]
    ensures Moved1d(b', s, i + 1)
  {
  }

  lemma MovedAll1d(b: seq<Body1d>, s: seq<Body1d>)
    requires Moved1d(b, s, |s|)
    ensures b == Step1dSpec(s)
  {
  }

  // ------------------------------------------- conservation of momentum

  function VelocitySumUpTo(s: seq<Body1d>, k: nat): int
    requires k <= |s|
  {
    if k == 0 then 0 else VelocitySumUpTo(s, k - 1) + s[k - 1].velocity
  }

  function VelocitySum(s: seq<Body1d>): int {
    VelocitySumUpTo(s, |s|)
  }

  /** The pulls on bodies `0 .. upto` from the bodies `0 .. m`. */
  function TotalGravity(ps: seq<int>, upto: nat, m: nat): int
    requires upto <= |ps| && m <= |ps|
  {
    if upto == 0 then 0 else TotalGravity(ps, upto - 1, m) + GravityOn(ps, upto - 1, m)
  }

  /** The pulls of bodies `0 .. upto` toward the position `x`. */
  function PullsToward(ps: seq<int>, upto: nat, x: int): int
    requires upto <= |ps|
  {
    if upto == 0 then 0 else PullsToward(ps, upto - 1, x) + Pull(ps[upto - 1], x)
  }

  lemma {:induction false} TotalGravityGrow(ps: seq<int>, upto: nat, m: nat)
    requires upto <= m < |ps|
    ensures TotalGravity(ps, upto, m + 1) == TotalGravity(ps, upto, m) + PullsToward(ps, upto, ps[m])
  {
    if upto > 0 {
      TotalGravityGrow(ps, upto - 1, m);
    }
  }

  lemma {:induction false} GravityOnIsPullsToward(ps: seq<int>, i: nat, m: nat)
    requires m <= i < |ps|
    ensures GravityOn(ps, i, m) == -PullsToward(ps, m, ps[i])
  {
    if m > 0 {
      GravityOnIsPullsToward(ps, i, m - 1);
      PullAntisymmetric(ps[i], ps[m - 1]);
    }
  }

  /** The pulls between the bodies `0 .. m` cancel in pairs. */
  lemma {:induction false} GravityCancels(ps: seq<int>, m: nat)
    requires m <= |ps|
    ensures TotalGravity(ps, m, m) == 0
  {
    if m > 0 {
      var k := m - 1;
      GravityCancels(ps, k);
      TotalGravityGrow(ps, k, k);
      GravityOnIsPullsToward(ps, k, k);
    }
  }

  lemma {:induction false} VelocitySumOfStep(s: seq<Body1d>, k: nat)
    requires k <= |s|
    ensures VelocitySumUpTo(Step1dSpec(s), k) == VelocitySumUpTo(s, k) + TotalGravity(Positions(s), k, |s|)
  {
    if k > 0 {
      VelocitySumOfStep(s, k - 1);
    }
  }

  /** `step_1d` keeps the sum of the velocities. */
  lemma VelocitySumPreserved(s: seq<Body1d>)
    ensures VelocitySum(Step1dSpec(s)) == VelocitySum(s)
  {
    VelocitySumOfStep(s, |s|);
    GravityCancels(Positions(s), |s|);
  }

  // ------------------------------------------------------------ three axes

  function BodyPositions(bs: seq<Body>): (ps: seq<Vector>)
    ensures |ps| == |bs| && forall k | 0 <= k < |bs| :: ps[k] == bs[k].position
  {
    seq(|bs|, k requires 0 <= k < |bs| => bs[k].position)
  }

  /** The summed adjustments on body `i` from the bodies `0 .. m` other than
      itself. */
  function Gravity(ps: seq<Vector>, i: nat, m: nat): Vector
    requires i < |ps| && m <= |ps|
  {
    if m == 0 then Zero
    else if m - 1 == i then Gravity(ps, i, m - 1)
    else Plus(Gravity(ps, i, m - 1), GravityAdjustment(ps[i], ps[m - 1]))
  }

  lemma GravityGrow(ps: seq<Vector>, i: nat, j: nat, v: Vector)
    requires i < |ps| && j < |ps|
    ensures j == i ==> Plus(v, Gravity(ps, i, j + 1)) == Plus(v, Gravity(ps, i, j))
    ensures j != i ==> Plus(v, Gravity(ps, i, j + 1)) == Plus(Plus(v, Gravity(ps, i, j)), GravityAdjustment(ps[i], ps[j]))
  {
  }

  /** The state after one `step`. */
  function StepSpec(bs: seq<Body>): (r: seq<Body>)
    ensures |r| == |bs|
  {
    seq(|bs|, i requires 0 <= i < |bs| => Stepped(bs, i))
  }

  /** Body `i` after one `step`. */
  function Stepped(bs: seq<Body>, i: nat): Body
    requires i < |bs|
  {
    var v := Plus(bs[i].velocity, Gravity(BodyPositions(bs), i, |bs|));
    Body(Plus(bs[i].position, v), v)
  }

  /** `step`, in place, as `step_1d` but on vectors. */
  method Step(bodies: array<Body>)
    modifies bodies
    ensures bodies[..] == StepSpec(old(bodies[..]))
  {
    ghost var s := bodies[..];
    Gravitate(bodies);
    Move(bodies, s);
    MovedAll(bodies[..], s);
  }

  /** The first loop of `step`. */
  method Gravitate(bodies: array<Body>)
    modifies bodies
    ensures Moved(bodies[..], old(bodies[..]), 0)
  {
    ghost var s := bodies[..];
    var n := bodies.Length;
    for i := 0 to n
      invariant Pulled(bodies[..], s, i, 0)
    {
      PullOne(bodies, i, s);
    }
    PulledAll(bodies[..], s);
  }

  /** One pass of the inner loop of `step`. */
  method PullOne(bodies: array<Body>, i: nat, ghost s: seq<Body>)
    requires i < |s| && Pulled(bodies[..], s, i, 0)
    modifies bodies
    ensures Pulled(bodies[..], s, i + 1, 0)
  {
    var n := bodies.Length;
    for j := 0 to n
      invariant Pulled(bodies[..], s, i, j)
    {
      if i != j {
        var otherPos := bodies[j].position;
        var body1 := bodies[i];
        ghost var b := bodies[..];
        bodies[i] := body1.(velocity := Plus(body1.velocity, GravityAdjustment(body1.position, otherPos)));
        PullStep(b, bodies[..], s, i, j);
      } else {
        PullSkip(bodies[..], s, i);
      }
    }
    PulledNext(bodies[..], s, i);
  }

  /** The second loop of `step`. */
  method Move(bodies: array<Body>, ghost s: seq<Body>)
    requires Moved(bodies[..], s, 0)
    modifies bodies
    ensures Moved(bodies[..], s, |s|)
  {
    var n := bodies.Length;
    for i := 0 to n
      invariant Moved(bodies[..], s, i)
    {
      ghost var b := bodies[..];
      bodies[i] := bodies[i].(position := Plus(bodies[i].position, bodies[i].velocity));
      MoveStep(b, bodies[..], s, i);
    }
  }

  /** The first loop of `step` has updated the velocities of bodies
      `0 .. i` and pulled body `i` toward bodies `0 .. j`. */
  ghost predicate Pulled(b: seq<Body>, s: seq<Body>, i: nat, j: nat)
  {
    && |b| == |s| && i <= |s| && j <= |s|
    && (forall k | 0 <= k < |s| :: b[k].position == s[k].position)
    && (forall k | 0 <= k < i :: b[k].velocity == Plus(s[k].velocity, Gravity(BodyPositions(s), k, |s|)))
    && (forall k | i < k < |s| :: b[k] == s[k])
    && (i < |s| ==> b[i].velocity == Plus(s[i].velocity, Gravity(BodyPositions(s), i, j)))
  }

  lemma PullStep(b: seq<Body>, b': seq<Body>, s: seq<Body>, i: nat, j: nat)
    requires Pulled(b, s, i, j) && i < |s| && j < |s| && i != j
    requires b' == b[i := b[i].(velocity := Plus(b[i].velocity, GravityAdjustment(b[i].position, b[j].position)))]
    ensures Pulled(b', s, i, j + 1)
  {
    GravityGrow(BodyPositions(s), i, j, s[i].velocity);
  }

  lemma PullSkip(b: seq<Body>, s: seq<Body>, i: nat)
    requires Pulled(b, s, i, i) && i < |s|
    ensures Pulled(b, s, i, i + 1)
  {
    GravityGrow(BodyPositions(s), i, i, s[i].velocity);
  }

  lemma PulledNext(b: seq<Body>, s: seq<Body>, i: nat)
    requires i < |s| && Pulled(b, s, i, |s|)
    ensures Pulled(b, s, i + 1, 0)
  {
  }

  lemma PulledAll(b: seq<Body>, s: seq<Body>)
    requires Pulled(b, s, |s|, 0)
    ensures Moved(b, s, 0)
  {
  }

  /** The second loop of `step` has moved bodies `0 .. i`. */
  ghost predicate Moved(b: seq<Body>, s: seq<Body>, i: nat)
  {
    && |b| == |s| && i <= |s|
    && (forall k | 0 <= k < i :: b[k] == Stepped(s, k))
    && (forall k | i <= k < |s| :: b[k] == Body(s[k].position, Plus(s[k].velocity, Gravity(BodyPositions(s), k, |s|))))
  }

  lemma MoveStep(b: seq<Body>, b': seq<Body>, s: seq<Body>, i: nat)
    requires Moved(b, s, i) && i < |s|
    requires b' == b[i := b[i].(position := Plus(b[i].position, b[i].velocity))]
    ensures Moved(b', s, i + 1)
  {
  }

  lemma MovedAll(b: seq<Body>, s: seq<Body>)
    requires Moved(b, s, |s|)
    ensures b == StepSpec(s)
  {
  }

  function Project(bs: seq<Body>, ax: Axis): (s: seq<Body1d>)
    ensures |s| == |bs|
    ensures forall k | 0 <= k < |bs| ::
      s[k] == Body1d(Component(bs[k].position, ax), Component(bs[k].velocity, ax))
  {
    seq(|bs|, k requires 0 <= k < |bs| =>
      Body1d(Component(bs[k].position, ax), Component(bs[k].velocity, ax)))
  }

  lemma {:induction false} GravityComponent(bs: seq<Body>, i: nat, m: nat, ax: Axis)
    requires i < |bs| && m <= |bs|
    ensures Component(Gravity(BodyPositions(bs), i, m), ax) == GravityOn(Positions(Project(bs, ax)), i, m)
  {
    if m > 0 {
      GravityComponent(bs, i, m - 1, ax);
    }
  }

  /** `step` on bodies in space is `step_1d` on each axis by itself. */
  lemma StepIsStep1dPerAxis(bs: seq<Body>, ax: Axis)
    ensures Project(StepSpec(bs), ax) == Step1dSpec(Project(bs, ax))
  {
    forall i | 0 <= i < |bs|
      ensures Project(StepSpec(bs), ax)[i] == Step1dSpec(Project(bs, ax))[i]
    {
      GravityComponent(bs, i, |bs|, ax);
    }
  }

  // ---------------------------------------------------------------- period

  function Iterate1d(s: seq<Body1d>, n: nat): (r: seq<Body1d>)
    ensures |r| == |s|
  {
    if n == 0 then s else Step1dSpec(Iterate1d(s, n - 1))
  }

  /** `get_period`: the first number of steps after which the bodies are back
      where they started. The source loops until that happens; here the
      search gives up after `fuel` steps. */
  method GetPeriod(initial: seq<Body1d>, fuel: nat) returns (r: Option<nat>)
    ensures r.Some? ==> 1 <= r.value <= fuel && Iterate1d(initial, r.value) == initial
    ensures r.Some? ==> forall k | 1 <= k < r.value :: Iterate1d(initial, k) != initial
    ensures r.None? ==> forall k | 1 <= k <= fuel :: Iterate1d(initial, k) != initial
  {
    var state := new Body1d[|initial|](i requires 0 <= i < |initial| => initial[i]);
    assert state[..] == initial;
    var counter := 0;
    while counter < fuel
      invariant counter <= fuel
      invariant state[..] == Iterate1d(initial, counter)
      invariant forall k | 1 <= k <= counter :: Iterate1d(initial, k) != initial
    {
      Step1d(state);
      counter := counter + 1;
      assert state[..] == Iterate1d(initial, counter);
      if state[..] == initial {
        return Some(counter);
      }
    }
    return None;
  }

  // -------------------------------------------------------------- examples

  /** The one-axis test: body 3 has velocity -1 and position 2 after one
      step, and position 1 after two. */
  lemma Step1dExample()
    ensures Step1dSpec([Body1d(-1, 0), Body1d(2, 0), Body1d(4, 0), Body1d(3, 0)])
      == [Body1d(2, 3), Body1d(3, 1), Body1d(1, -3), Body1d(2, -1)]
    ensures Step1dSpec([Body1d(2, 3), Body1d(3, 1), Body1d(1, -3), Body1d(2, -1)])
      == [Body1d(5, 3), Body1d(1, -2), Body1d(1, 0), Body1d(1, -1)]
  {
    StepOfFour([Body1d(-1, 0), Body1d(2, 0), Body1d(4, 0), Body1d(3, 0)]);
    StepOfFour([Body1d(2, 3), Body1d(3, 1), Body1d(1, -3), Body1d(2, -1)]);
  }

  function Iterate(bs: seq<Body>, n: nat): (r: seq<Body>)
    ensures |r| == |bs|
  {
    if n == 0 then bs else StepSpec(Iterate(bs, n - 1))
  }

  /** `n` steps in space are `n` steps of each axis by itself. */
  lemma {:induction false} IterateIsIterate1dPerAxis(bs: seq<Body>, n: nat, ax: Axis)
    ensures Project(Iterate(bs, n), ax) == Iterate1d(Project(bs, ax), n)
  {
    if n > 0 {
      IterateIsIterate1dPerAxis(bs, n - 1, ax);
      StepIsStep1dPerAxis(Iterate(bs, n - 1), ax);
    }
  }

  /** The bodies are back at their start after `n` steps iff every axis is:
      the reason the period in space is the lcm of the periods of the axes. */
  lemma ReturnsIffEveryAxisReturns(bs: seq<Body>, n: nat)
    ensures Iterate(bs, n) == bs <==>
      && Iterate1d(Project(bs, X), n) == Project(bs, X)
      && Iterate1d(Project(bs, Y), n) == Project(bs, Y)
      && Iterate1d(Project(bs, Z), n) == Project(bs, Z)
  {
    IterateIsIterate1dPerAxis(bs, n, X);
    IterateIsIterate1dPerAxis(bs, n, Y);
    IterateIsIterate1dPerAxis(bs, n, Z);
    if Iterate1d(Project(bs, X), n) == Project(bs, X)
      && Iterate1d(Project(bs, Y), n) == Project(bs, Y)
      && Iterate1d(Project(bs, Z), n) == Project(bs, Z)
    {
      ProjectInjective(Iterate(bs, n), bs);
    }
  }

  /** Bodies in space from their three axes. */
  function Combine(xs: seq<Body1d>, ys: seq<Body1d>, zs: seq<Body1d>): (bs: seq<Body>)
    requires |xs| == |ys| == |zs|
    ensures Project(bs, X) == xs && Project(bs, Y) == ys && Project(bs, Z) == zs
  {
    seq(|xs|, k requires 0 <= k < |xs| =>
      Body(Vector(xs[k].position, ys[k].position, zs[k].position),
           Vector(xs[k].velocity, ys[k].velocity, zs[k].velocity)))
  }

  /** Bodies are determined by their three axes. */
  lemma ProjectInjective(a: seq<Body>, b: seq<Body>)
    requires |a| == |b|
    requires Project(a, X) == Project(b, X) && Project(a, Y) == Project(b, Y) && Project(a, Z) == Project(b, Z)
    ensures a == b
  {
    forall k | 0 <= k < |a| ensures a[k] == b[k] {
      assert Project(a, X)[k] == Project(b, X)[k];
      assert Project(a, Y)[k] == Project(b, Y)[k];
      assert Project(a, Z)[k] == Project(b, Z)[k];
    }
  }

  function NewVelocity(s: seq<Body1d>, i: nat): int
    requires |s| == 4 && i < 4
  {
    s[i].velocity
      + (if i == 0 then 0 else Pull(s[i].position, s[0].position))
      + (if i == 1 then 0 else Pull(s[i].position, s[1].position))
      + (if i == 2 then 0 else Pull(s[i].position, s[2].position))
      + (if i == 3 then 0 else Pull(s[i].position, s[3].position))
  }

  /** `step_1d` on four bodies, written out. */
  lemma StepOfFour(s: seq<Body1d>)
    requires |s| == 4
    ensures Step1dSpec(s) == [
      Body1d(s[0].position + NewVelocity(s, 0), NewVelocity(s, 0)),
      Body1d(s[1].position + NewVelocity(s, 1), NewVelocity(s, 1)),
      Body1d(s[2].position + NewVelocity(s, 2), NewVelocity(s, 2)),
      Body1d(s[3].position + NewVelocity(s, 3), NewVelocity(s, 3))]
  {
    var ps := Positions(s);
    forall i | 0 <= i < 4 ensures s[i].velocity + GravityOn(ps, i, 4) == NewVelocity(s, i) {
      assert GravityOn(ps, i, 1) == (if i == 0 then 0 else Pull(s[i].position, s[0].position));
      assert GravityOn(ps, i, 2) == GravityOn(ps, i, 1) + (if i == 1 then 0 else Pull(s[i].position, s[1].position));
      assert GravityOn(ps, i, 3) == GravityOn(ps, i, 2) + (if i == 2 then 0 else Pull(s[i].position, s[2].position));
      assert GravityOn(ps, i, 4) == GravityOn(ps, i, 3) + (if i == 3 then 0 else Pull(s[i].position, s[3].position));
    }
  }

  /** Axis X of the space example after `k` steps. */
  function ExampleX(k: nat): seq<Body1d>
    requires k <= 10
  {
    if k == 0 then [Body1d(-1, 0), Body1d(2, 0), Body1d(4, 0), Body1d(3, 0)]
    else if k == 1 then [Body1d(2, 3), Body1d(3, 1), Body1d(1, -3), Body1d(2, -1)]
    else if k == 2 then [Body1d(5, 3), Body1d(1, -2), Body1d(1, 0), Body1d(1, -1)]
    else if k == 3 then [Body1d(5, 0), Body1d(0, -1), Body1d(2, 1), Body1d(1, 0)]
    else if k == 4 then [Body1d(2, -3), Body1d(2, 2), Body1d(2, 0), Body1d(2, 1)]
    else if k == 5 then [Body1d(-1, -3), Body1d(4, 2), Body1d(2, 0), Body1d(3, 1)]
    else if k == 6 then [Body1d(-1, 0), Body1d(3, -1), Body1d(3, 1), Body1d(3, 0)]
    else if k == 7 then [Body1d(2, 3), Body1d(1, -2), Body1d(3, 0), Body1d(2, -1)]
    else if k == 8 then [Body1d(5, 3), Body1d(2, 1), Body1d(0, -3), Body1d(1, -1)]
    else if k == 9 then [Body1d(5, 0), Body1d(2, 0), Body1d(0, 0), Body1d(1, 0)]
    else [Body1d(2, -3), Body1d(1, -1), Body1d(3, 3), Body1d(2, 1)]
  }

  /** Axis Y of the space example after `k` steps. */
  function ExampleY(k: nat): seq<Body1d>
    requires k <= 10
  {
    if k == 0 then [Body1d(0, 0), Body1d(-10, 0), Body1d(-8, 0), Body1d(5, 0)]
    else if k == 1 then [Body1d(-1, -1), Body1d(-7, 3), Body1d(-7, 1), Body1d(2, -3)]
    else if k == 2 then [Body1d(-3, -2), Body1d(-2, 5), Body1d(-4, 3), Body1d(-4, -6)]
    else if k == 3 then [Body1d(-6, -3), Body1d(0, 2), Body1d(1, 5), Body1d(-8, -4)]
    else if k == 4 then [Body1d(-8, -2), Body1d(1, 1), Body1d(3, 2), Body1d(-9, -1)]
    else if k == 5 then [Body1d(-9, -1), Body1d(1, 0), Body1d(2, -1), Body1d(-7, 2)]
    else if k == 6 then [Body1d(-7, 2), Body1d(0, -1), Body1d(-2, -4), Body1d(-4, 3)]
    else if k == 7 then [Body1d(-2, 5), Body1d(-4, -4), Body1d(-7, -5), Body1d(0, 4)]
    else if k == 8 then [Body1d(2, 4), Body1d(-7, -3), Body1d(-9, -2), Body1d(1, 1)]
    else if k == 9 then [Body1d(3, 1), Body1d(-9, -2), Body1d(-8, 1), Body1d(1, 0)]
    else [Body1d(1, -2), Body1d(-8, 1), Body1d(-6, 2), Body1d(0, -1)]
  }

  /** Axis Z of the space example after `k` steps. */
  function ExampleZ(k: nat): seq<Body1d>
    requires k <= 10
  {
    if k == 0 then [Body1d(2, 0), Body1d(-7, 0), Body1d(8, 0), Body1d(-1, 0)]
    else if k == 1 then [Body1d(1, -1), Body1d(-4, 3), Body1d(5, -3), Body1d(0, 1)]
    else if k == 2 then [Body1d(-1, -2), Body1d(2, 6), Body1d(-1, -6), Body1d(2, 2)]
    else if k == 3 then [Body1d(-1, 0), Body1d(6, 4), Body1d(-5, -4), Body1d(2, 0)]
    else if k == 4 then [Body1d(0, 1), Body1d(7, 1), Body1d(-6, -1), Body1d(1, -1)]
    else if k == 5 then [Body1d(2, 2), Body1d(5, -2), Body1d(-4, 2), Body1d(-1, -2)]
    else if k == 6 then [Body1d(3, 1), Body1d(0, -5), Body1d(1, 5), Body1d(-2, -1)]
    else if k == 7 then [Body1d(1, -2), Body1d(-4, -4), Body1d(5, 4), Body1d(0, 2)]
    else if k == 8 then [Body1d(-2, -3), Body1d(-5, -1), Body1d(6, 1), Body1d(3, 3)]
    else if k == 9 then [Body1d(-4, -2), Body1d(-3, 2), Body1d(4, -2), Body1d(5, 2)]
    else [Body1d(-3, 1), Body1d(0, 3), Body1d(1, -3), Body1d(4, -1)]
  }

  lemma ExampleAxesStep0()
    ensures Step1dSpec(ExampleX(0)) == ExampleX(1)
    ensures Step1dSpec(ExampleY(0)) == ExampleY(1)
    ensures Step1dSpec(ExampleZ(0)) == ExampleZ(1)
  {
    StepOfFour(ExampleX(0));
    StepOfFour(ExampleY(0));
    StepOfFour(ExampleZ(0));
  }

  lemma ExampleAxesStep1()
    ensures Step1dSpec(ExampleX(1)) == ExampleX(2)
    ensures Step1dSpec(ExampleY(1)) == ExampleY(2)
    ensures Step1dSpec(ExampleZ(1)) == ExampleZ(2)
  {
    StepOfFour(ExampleX(1));
    StepOfFour(ExampleY(1));
    StepOfFour(ExampleZ(1));
  }

  lemma ExampleAxesStep2()
    ensures Step1dSpec(ExampleX(2)) == ExampleX(3)
    ensures Step1dSpec(ExampleY(2)) == ExampleY(3)
    ensures Step1dSpec(ExampleZ(2)) == ExampleZ(3)
  {
    StepOfFour(ExampleX(2));
    StepOfFour(ExampleY(2));
    StepOfFour(ExampleZ(2));
  }

  lemma ExampleAxesStep3()
    ensures Step1dSpec(ExampleX(3)) == ExampleX(4)
    ensures Step1dSpec(ExampleY(3)) == ExampleY(4)
    ensures Step1dSpec(ExampleZ(3)) == ExampleZ(4)
  {
    StepOfFour(ExampleX(3));
    StepOfFour(ExampleY(3));
    StepOfFour(ExampleZ(3));
  }

  lemma ExampleAxesStep4()
    ensures Step1dSpec(ExampleX(4)) == ExampleX(5)
    ensures Step1dSpec(ExampleY(4)) == ExampleY(5)
    ensures Step1dSpec(ExampleZ(4)) == ExampleZ(5)
  {
    StepOfFour(ExampleX(4));
    StepOfFour(ExampleY(4));
    StepOfFour(ExampleZ(4));
  }

  lemma ExampleAxesStep5()
    ensures Step1dSpec(ExampleX(5)) == ExampleX(6)
    ensures Step1dSpec(ExampleY(5)) == ExampleY(6)
    ensures Step1dSpec(ExampleZ(5)) == ExampleZ(6)
  {
    StepOfFour(ExampleX(5));
    StepOfFour(ExampleY(5));
    StepOfFour(ExampleZ(5));
  }

  lemma ExampleAxesStep6()
    ensures Step1dSpec(ExampleX(6)) == ExampleX(7)
    ensures Step1dSpec(ExampleY(6)) == ExampleY(7)
    ensures Step1dSpec(ExampleZ(6)) == ExampleZ(7)
  {
    StepOfFour(ExampleX(6));
    StepOfFour(ExampleY(6));
    StepOfFour(ExampleZ(6));
  }

  lemma ExampleAxesStep7()
    ensures Step1dSpec(ExampleX(7)) == ExampleX(8)
    ensures Step1dSpec(ExampleY(7)) == ExampleY(8)
    ensures Step1dSpec(ExampleZ(7)) == ExampleZ(8)
  {
    StepOfFour(ExampleX(7));
    StepOfFour(ExampleY(7));
    StepOfFour(ExampleZ(7));
  }

  lemma ExampleAxesStep8()
    ensures Step1dSpec(ExampleX(8)) == ExampleX(9)
    ensures Step1dSpec(ExampleY(8)) == ExampleY(9)
    ensures Step1dSpec(ExampleZ(8)) == ExampleZ(9)
  {
    StepOfFour(ExampleX(8));
    StepOfFour(ExampleY(8));
    StepOfFour(ExampleZ(8));
  }

  lemma ExampleAxesStep9()
    ensures Step1dSpec(ExampleX(9)) == ExampleX(10)
    ensures Step1dSpec(ExampleY(9)) == ExampleY(10)
    ensures Step1dSpec(ExampleZ(9)) == ExampleZ(10)
  {
    StepOfFour(ExampleX(9));
    StepOfFour(ExampleY(9));
    StepOfFour(ExampleZ(9));
  }

  function ExampleState(k: nat): seq<Body>
    requires k <= 10
  {
    Combine(ExampleX(k), ExampleY(k), ExampleZ(k))
  }

  lemma StepFromAxes(k: nat)
    requires k < 10
    requires Step1dSpec(ExampleX(k)) == ExampleX(k + 1)
    requires Step1dSpec(ExampleY(k)) == ExampleY(k + 1)
    requires Step1dSpec(ExampleZ(k)) == ExampleZ(k + 1)
    ensures StepSpec(ExampleState(k)) == ExampleState(k + 1)
  {
    StepIsStep1dPerAxis(ExampleState(k), X);
    StepIsStep1dPerAxis(ExampleState(k), Y);
    StepIsStep1dPerAxis(ExampleState(k), Z);
    ProjectInjective(StepSpec(ExampleState(k)), ExampleState(k + 1));
  }

  lemma IterateOnce(bs: seq<Body>, k: nat, next: seq<Body>)
    requires StepSpec(Iterate(bs, k)) == next
    ensures Iterate(bs, k + 1) == next
  {
  }

  /** The space test, which starts from `ExampleStart`; `ExampleBodyThree`
      gives body 3 after one and after two steps. */
  lemma ExampleIterate()
    ensures Iterate(ExampleState(0), 1) == ExampleState(1)
    ensures Iterate(ExampleState(0), 2) == ExampleState(2)
    ensures Iterate(ExampleState(0), 10) == ExampleState(10)
  {
    ExampleAxesStep0(); StepFromAxes(0); IterateOnce(ExampleState(0), 0, ExampleState(1));
    ExampleAxesStep1(); StepFromAxes(1); IterateOnce(ExampleState(0), 1, ExampleState(2));
    ExampleAxesStep2(); StepFromAxes(2); IterateOnce(ExampleState(0), 2, ExampleState(3));
    ExampleAxesStep3(); StepFromAxes(3); IterateOnce(ExampleState(0), 3, ExampleState(4));
    ExampleAxesStep4(); StepFromAxes(4); IterateOnce(ExampleState(0), 4, ExampleState(5));
    ExampleAxesStep5(); StepFromAxes(5); IterateOnce(ExampleState(0), 5, ExampleState(6));
    ExampleAxesStep6(); StepFromAxes(6); IterateOnce(ExampleState(0), 6, ExampleState(7));
    ExampleAxesStep7(); StepFromAxes(7); IterateOnce(ExampleState(0), 7, ExampleState(8));
    ExampleAxesStep8(); StepFromAxes(8); IterateOnce(ExampleState(0), 8, ExampleState(9));
    ExampleAxesStep9(); StepFromAxes(9); IterateOnce(ExampleState(0), 9, ExampleState(10));
  }

  lemma ExampleStart()
    ensures ExampleState(0) == [NewBody(-1, 0, 2), NewBody(2, -10, -7), NewBody(4, -8, 8), NewBody(3, 5, -1)]
  {
  }

  lemma ExampleBodyThree()
    ensures ExampleState(1)[3] == Body(Vector(2, 2, 0), Vector(-1, -3, 1))
    ensures ExampleState(2)[3] == Body(Vector(1, -4, 2), Vector(-1, -6, 2))
  {
  }

  lemma ExampleEnergy()
    ensures TotalEnergy(ExampleState(10)) == 179
  {
    var last := ExampleState(10);
    var b0, b1 := Body(Vector(2, 1, -3), Vector(-3, -2, 1)), Body(Vector(1, -8, 0), Vector(-1, 1, 3));
    var b2, b3 := Body(Vector(3, -6, 1), Vector(3, 2, -3)), Body(Vector(2, 0, 4), Vector(1, -1, -1));
    assert last == [b0, b1, b2, b3];
    assert GetEnergy(b0) == 36 && GetEnergy(b1) == 45 && GetEnergy(b2) == 80 && GetEnergy(b3) == 18;
    assert last[..3] == [b0, b1, b2] && last[..3][..2] == [b0, b1] && last[..3][..2][..1] == [b0];
    assert TotalEnergy([b0]) == 36 by {
      assert [b0][..0] == [];
    }
  }

  /** The total energy 179 after ten steps of the space test. */
  lemma EnergyExample()
    ensures TotalEnergy(Iterate(ExampleState(0), 10)) == 179
  {
    ExampleIterate();
    ExampleEnergy();
  }
}
