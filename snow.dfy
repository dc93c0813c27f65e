/**
 * The snow canvas: a pool of flakes that fall at their own speed, sway
 * sideways, come back at the top when they pass the bottom edge and wrap
 * around the side edges. `Math.random()` values and `Math.sin` are
 * parameters: random values lie in [0, 1) and the sine in [-1, 1].
 */
module Snow {

  /** Number of flakes in the pool. */
  const FlakeCount: nat := 50
  /** Height at which a flake that fell off the bottom reappears. */
  const RespawnY: real := -10.0
  /** Factor applied to a flake's height before taking the sine of it. */
  const SwayFrequency: real := 0.005

  datatype Flake = Flake(x: real, y: real, radius: real, speed: real, opacity: real, sway: real)

  predicate InUnit(u: real) {
    0.0 <= u < 1.0
  }

  predicate AllInUnit(us: seq<real>) {
    forall k :: 0 <= k < |us| ==> InUnit(us[k])
  }

  /** The six `Math.random()` values one `createFlake` takes, one list per flake. */
  predicate FlakeDraws(draws: seq<seq<real>>) {
    forall k :: 0 <= k < |draws| ==> |draws[k]| == 6 && AllInUnit(draws[k])
  }

  ghost predicate IsSine(sin: real -> real) {
    forall a :: -1.0 <= sin(a) <= 1.0
  }

  function Abs(x: real): real {
    if x < 0.0 then -x else x
  }

  /** Size, speed, opacity and sway within the ranges `createFlake` draws them from. */
  predicate Attributes(f: Flake) {
    && 1.0 <= f.radius < 3.0
    && 0.3 <= f.speed < 0.8
    && 0.3 <= f.opacity < 0.8
    && 0.05 <= f.sway < 0.2
  }

  /** `v` is `Math.random() * bound`: in [0, bound), or 0 when the bound is 0. */
  predicate Below(v: real, bound: nat) {
    0.0 <= v && (v < bound as real || (bound == 0 && v == 0.0))
  }

  /** Where a flake can be between frames: across the full width, from the respawn height down to the bottom edge. */
  predicate OnCanvas(f: Flake, width: nat, height: nat) {
    0.0 <= f.x <= width as real && RespawnY <= f.y <= height as real
  }

  /** `createFlake`, with `u` the six `Math.random()` values in the order the fields are written. */
  function CreateFlake(width: nat, height: nat, u: seq<real>): (f: Flake)
    requires |u| == 6 && AllInUnit(u)
    ensures Attributes(f)
    ensures Below(f.x, width) && Below(f.y, height)
    ensures OnCanvas(f, width, height)
  {
    ScaleBelow(u[0], width);
    ScaleBelow(u[1], height);
    Flake(u[0] * width as real, u[1] * height as real,
          u[2] * 2.0 + 1.0, u[3] * 0.5 + 0.3, u[4] * 0.5 + 0.3, u[5] * 0.15 + 0.05)
  }

  lemma ScaleBelow(u: real, bound: nat)
    requires InUnit(u)
    ensures Below(u * bound as real, bound)
  {
    if bound > 0 {
      assert u * bound as real < 1.0 * bound as real;
    }
  }

  /** Whether a flake passes the bottom edge this tick. */
  predicate Respawns(f: Flake, height: nat) {
    f.y + f.speed > height as real
  }

  /** The horizontal position after the sway, before any respawn or wrap. */
  function Swayed(f: Flake, sin: real -> real): real {
    f.x + sin((f.y + f.speed) * SwayFrequency) * f.sway
  }

  /**
   * One flake's tick in `update`: fall by its speed, sway, come back at the
   * top at a fresh `x` (from the random value `u`) when it passed the bottom,
   * then wrap around the side edges.
   */
  function Step(f: Flake, width: nat, height: nat, sin: real -> real, u: real): (g: Flake)
    requires IsSine(sin) && InUnit(u)
    ensures g.radius == f.radius && g.speed == f.speed && g.opacity == f.opacity && g.sway == f.sway
    ensures 0.0 <= g.x <= width as real && g.y <= height as real
    ensures Respawns(f, height) ==> g.y == RespawnY && Below(g.x, width)
    ensures !Respawns(f, height) ==> g.y == f.y + f.speed
    ensures !Respawns(f, height) ==>
      if Swayed(f, sin) > width as real then g.x == 0.0
      else if Swayed(f, sin) < 0.0 then g.x == width as real
      else g.x == Swayed(f, sin)
    ensures Abs(Swayed(f, sin) - f.x) <= Abs(f.sway)
  {
    var fallen := f.y + f.speed;
    var s := sin(fallen * SwayFrequency);
    SwayBounded(s, f.sway);
    var swayed := f.x + s * f.sway;
    assert swayed == Swayed(f, sin);
    ScaleBelow(u, width);
    var x := if fallen > height as real then u * width as real else swayed;
    var y := if fallen > height as real then RespawnY else fallen;
    f.(x := if x > width as real then 0.0 else if x < 0.0 then width as real else x, y := y)
  }

  lemma SwayBounded(s: real, sway: real)
    requires -1.0 <= s <= 1.0
    ensures Abs(s * sway) <= Abs(sway)
  {
    if sway >= 0.0 {
      assert -sway <= s * sway <= sway;
    } else {
      assert sway <= s * sway <= -sway;
    }
  }

  /** A tick keeps a flake's attributes and keeps it on the canvas. */
  lemma StepKeepsOnCanvas(f: Flake, width: nat, height: nat, sin: real -> real, u: real)
    requires IsSine(sin) && InUnit(u)
    requires Attributes(f) && OnCanvas(f, width, height)
    ensures Attributes(Step(f, width, height, sin, u)) && OnCanvas(Step(f, width, height, sin, u), width, height)
  {
  }

  /** Result of ticking a run of flakes, and how many random values the respawns took. */
  datatype Ticked = Ticked(flakes: seq<Flake>, used: nat)

  /**
   * `update` over a run of flakes: each flake ticks in turn, and each flake
   * that respawns takes the next random value.
   */
  function StepAll(fs: seq<Flake>, width: nat, height: nat, sin: real -> real, rand: seq<real>): (r: Ticked)
    requires IsSine(sin) && AllInUnit(rand) && |rand| >= |fs|
    ensures |r.flakes| == |fs| && r.used <= |rand|
    decreases |fs|
  {
    if fs == [] then Ticked([], 0)
    else
      var respawn := Respawns(fs[0], height);
      var g := Step(fs[0], width, height, sin, rand[0]);
      var n := if respawn then 1 else 0;
      var rest := StepAll(fs[1..], width, height, sin, rand[n..]);
      Ticked([g] + rest.flakes, n + rest.used)
  }

  /** Each flake of a tick is that flake's `Step`, with the random value it was given. */
  lemma {:induction false} StepAllEach(fs: seq<Flake>, width: nat, height: nat, sin: real -> real, rand: seq<real>, k: nat)
    requires IsSine(sin) && AllInUnit(rand) && |rand| >= |fs|
    requires k < |fs|
    ensures exists u :: InUnit(u) && StepAll(fs, width, height, sin, rand).flakes[k] == Step(fs[k], width, height, sin, u)
    decreases |fs|
  {
    if k == 0 {
      assert InUnit(rand[0]);
    } else {
      var n := if Respawns(fs[0], height) then 1 else 0;
      StepAllEach(fs[1..], width, height, sin, rand[n..], k - 1);
    }
  }

  /** The pool invariant: the right number of flakes, each with valid attributes and on the canvas. */
  predicate Pool(flakes: seq<Flake>, width: nat, height: nat) {
    && |flakes| == FlakeCount
    && forall k :: 0 <= k < |flakes| ==> Attributes(flakes[k]) && OnCanvas(flakes[k], width, height)
  }

  /** A tick of the whole pool keeps the pool invariant. */
  lemma StepAllKeepsPool(fs: seq<Flake>, width: nat, height: nat, sin: real -> real, rand: seq<real>)
    requires IsSine(sin) && AllInUnit(rand) && |rand| >= |fs|
    requires Pool(fs, width, height)
    ensures Pool(StepAll(fs, width, height, sin, rand).flakes, width, height)
  {
    var r := StepAll(fs, width, height, sin, rand).flakes;
    forall k | 0 <= k < |r|
      ensures Attributes(r[k]) && OnCanvas(r[k], width, height)
    {
      StepAllEach(fs, width, height, sin, rand, k);
      var u :| InUnit(u) && r[k] == Step(fs[k], width, height, sin, u);
      StepKeepsOnCanvas(fs[k], width, height, sin, u);
    }
  }

  /** The flakes `createFlake` makes from each list of random values, in order. */
  function Created(width: nat, height: nat, draws: seq<seq<real>>): (r: seq<Flake>)
    requires FlakeDraws(draws)
    ensures |r| == |draws|
  {
    seq(|draws|, k requires 0 <= k < |draws| => CreateFlake(width, height, draws[k]))
  }

  class SnowCanvas {
    var width: nat
    var height: nat
    var flakes: seq<Flake>

    ghost predicate Valid()
      reads this
    {
      Pool(flakes, width, height)
    }

    /** Mounting the effect: `init()`, which sizes the canvas and pushes `flakeCount` fresh flakes. */
    constructor (offsetWidth: nat, offsetHeight: nat, draws: seq<seq<real>>)
      requires |draws| == FlakeCount && FlakeDraws(draws)
      ensures Valid()
      ensures width == offsetWidth && height == offsetHeight
      ensures flakes == Created(offsetWidth, offsetHeight, draws)
    {
      width, height := offsetWidth, offsetHeight;
      flakes := [];
      new;
      PushFlakes(draws);
    }

    /** The `for (...) flakes.push(createFlake())` loop of `init` and of the resize handler. */
    method PushFlakes(draws: seq<seq<real>>)
      requires FlakeDraws(draws)
      modifies this`flakes
      ensures flakes == old(flakes) + Created(width, height, draws)
    {
      var i := 0;
      ghost var start := flakes;
      while i < |draws|
        invariant 0 <= i <= |draws|
        invariant flakes == start + Created(width, height, draws)[..i]
      {
        flakes := flakes + [CreateFlake(width, height, draws[i])];
        i := i + 1;
      }
    }

    /** The resize handler: take the new size, empty the pool and refill it with `flakeCount` fresh flakes. */
    method HandleResize(offsetWidth: nat, offsetHeight: nat, draws: seq<seq<real>>)
      requires |draws| == FlakeCount && FlakeDraws(draws)
      modifies this
      ensures Valid()
      ensures width == offsetWidth && height == offsetHeight
      ensures flakes == Created(offsetWidth, offsetHeight, draws)
    {
      width, height := offsetWidth, offsetHeight;
      flakes := [];
      PushFlakes(draws);
    }

    /**
     * `update`: every flake ticks, in order, and the pool is replaced by the
     * ticked flakes; `rand` holds the values `Math.random()` returns, of
     * which the respawned flakes take one each.
     */
    method Update(sin: real -> real, rand: seq<real>) returns (used: nat)
      requires Valid() && IsSine(sin) && AllInUnit(rand) && |rand| >= |flakes|
      modifies this`flakes
      ensures Valid()
      ensures Ticked(flakes, used) == StepAll(old(flakes), width, height, sin, rand)
    {
      var ticked: seq<Flake> := [];
      var rest, left := flakes, rand;
      used := 0;
      while rest != []
        invariant AllInUnit(left) && |left| >= |rest|
        invariant StepAll(flakes, width, height, sin, rand)
          == var r := StepAll(rest, width, height, sin, left);
             Ticked(ticked + r.flakes, used + r.used)
        decreases |rest|
      {
        var n := if Respawns(rest[0], height) then 1 else 0;
        var g := Step(rest[0], width, height, sin, left[0]);
        ghost var r := StepAll(rest[1..], width, height, sin, left[n..]);
        assert ticked + ([g] + r.flakes) == (ticked + [g]) + r.flakes;
        ticked := ticked + [g];
        used := used + n;
        rest, left := rest[1..], left[n..];
      }
      assert ticked + [] == ticked;
      ghost var fs := flakes;
      flakes := ticked;
      assert Pool(flakes, width, height) by {
        StepAllKeepsPool(fs, width, height, sin, rand);
      }
    }
  }
}
