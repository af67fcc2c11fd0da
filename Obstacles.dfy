/** The two kinds of obstacle, their per-tick motion, the playfield bounds
    that decide when one is removed, and the obstacles a tick may spawn. */
module Obstacles {
  import opened Geometry

  /** An obstacle is an immutable snapshot; each tick builds its successor. */
  datatype Obstacle =
    | FallingSquare(ticks: int, pos: Vec2)   // grows for ten ticks while it falls
    | SlidingSquare(pos: Vec2, forwards: bool)  // slides along the ground
  {
    /** One tick of motion. A falling square grows until its counter reaches
        10 and drops 6 pixels; a sliding square moves 6 pixels to the right
        when it goes forwards and 6 to the left otherwise. */
    function Tick(): (r: Obstacle)
      ensures r.FallingSquare? == FallingSquare?
      ensures FallingSquare? ==> r.pos.x == pos.x && r.pos.y == pos.y + 6.0
      ensures FallingSquare? && ticks < 10 ==> r.ticks == ticks + 1
      ensures FallingSquare? && ticks >= 10 ==> r.ticks == 10
      ensures SlidingSquare? ==> r.pos.y == pos.y && r.forwards == forwards
      ensures SlidingSquare? ==> r.pos.x == pos.x + (if forwards then 6.0 else -6.0)
      ensures GrowthInRange() ==> r.GrowthInRange()
    {
      match this
      case FallingSquare(t, p) =>
        FallingSquare(if t + 1 < 10 then t + 1 else 10, p.Plus(Vec2(0.0, 6.0)))
      case SlidingSquare(p, f) =>
        SlidingSquare(p.Plus(Vec2((if f then 1.0 else -1.0) * 6.0, 0.0)), f)
    }

    /** The growth counter of a falling square lies in [0, 10]. */
    predicate GrowthInRange() {
      FallingSquare? ==> 0 <= ticks <= 10
    }

    /** The removal test: left of the window, right of it, or below it. */
    predicate OutOfBounds() {
      pos.x < 0.0 || pos.y > HEIGHT as real || pos.x > WIDTH as real
    }
  }

  /** `n` ticks of one obstacle. */
  function TickN(o: Obstacle, n: nat): Obstacle {
    if n == 0 then o else TickN(o, n - 1).Tick()
  }

  /** After `n` ticks a falling square has dropped 6n pixels, kept its column,
      and its counter has grown by n but not past 10. */
  lemma {:induction false} FallingAfter(o: Obstacle, n: nat)
    requires o.FallingSquare? && o.ticks <= 10
    ensures TickN(o, n).FallingSquare?
    ensures TickN(o, n).ticks == if o.ticks + n < 10 then o.ticks + n else 10
    ensures TickN(o, n).pos == Vec2(o.pos.x, o.pos.y + 6.0 * n as real)
  {
    if n > 0 {
      FallingAfter(o, n - 1);
    }
  }

  /** After `n` ticks a sliding square has moved 6n pixels in its direction
      along the same row, and its direction has not changed. */
  lemma {:induction false} SlidingAfter(o: Obstacle, n: nat)
    requires o.SlidingSquare?
    ensures TickN(o, n).SlidingSquare? && TickN(o, n).forwards == o.forwards
    ensures TickN(o, n).pos.y == o.pos.y
    ensures TickN(o, n).pos.x == o.pos.x + (if o.forwards then 6.0 else -6.0) * n as real
  {
    if n > 0 {
      SlidingAfter(o, n - 1);
    }
  }

  /** The outcomes of the random draws of one tick: whether a falling square
      appears and at which integer cell, and whether a sliding square appears
      and from which side. */
  datatype SpawnRoll = SpawnRoll(falling: bool, fallX: int, fallY: int, sliding: bool, slideForwards: bool)

  /** The cells the random draws can produce: x in [0, WIDTH) and y in
      [0, HEIGHT / 4), both truncated to integers. */
  predicate Feasible(roll: SpawnRoll) {
    0 <= roll.fallX < WIDTH && 0 <= roll.fallY && roll.fallY * 4 < HEIGHT
  }

  /** A sliding square enters at the left edge going right or at the right
      edge going left, on the ground row. */
  function NewSlider(forwards: bool): (r: Obstacle)
    ensures r.SlidingSquare? && r.forwards == forwards && r.pos.y == GroundY
    ensures r.pos.x == if forwards then 1.0 else WIDTH as real
  {
    if forwards then SlidingSquare(Vec2(1.0, GroundY), true)
    else SlidingSquare(Vec2(WIDTH as real, GroundY), false)
  }

  /** The obstacles a tick appends, in the order it appends them. */
  function Spawned(roll: SpawnRoll): (r: seq<Obstacle>)
    ensures |r| == (if roll.falling then 1 else 0) + (if roll.sliding then 1 else 0)
    ensures roll.falling ==> r[0] == FallingSquare(0, Vec2(roll.fallX as real, roll.fallY as real))
    ensures roll.sliding ==> r[|r| - 1] == NewSlider(roll.slideForwards)
    ensures forall o :: o in r ==> o.GrowthInRange()
    ensures Feasible(roll) ==> forall o :: o in r ==> !o.OutOfBounds()
  {
    (if roll.falling then [FallingSquare(0, Vec2(roll.fallX as real, roll.fallY as real))] else [])
    + (if roll.sliding then [NewSlider(roll.slideForwards)] else [])
  }

  /** A sliding square is removed on the 109th tick of its life, whichever
      side it enters from (the spawning tick moves it too), and not before. */
  lemma SliderLifetime(forwards: bool, n: nat)
    ensures TickN(NewSlider(forwards), n).OutOfBounds() <==> n >= 109
  {
    SlidingAfter(NewSlider(forwards), n);
  }

  /** A falling square leaves through the bottom exactly when it has fallen
      below HEIGHT, as long as its column lies within the window. */
  lemma FallerLifetime(x: int, y: int, n: nat)
    requires 0 <= x <= WIDTH
    ensures TickN(FallingSquare(0, Vec2(x as real, y as real)), n).OutOfBounds()
            <==> y + 6 * n > HEIGHT
  {
    FallingAfter(FallingSquare(0, Vec2(x as real, y as real)), n);
  }

  /** Every obstacle of `s` advanced by one tick, in place and in order. */
  function Advanced(s: seq<Obstacle>): (r: seq<Obstacle>)
    ensures |r| == |s|
    ensures forall i :: 0 <= i < |s| ==> r[i] == s[i].Tick()
  {
    seq(|s|, i requires 0 <= i < |s| => s[i].Tick())
  }

  /** The obstacles that stay after pruning, in their original order. */
  function Survivors(s: seq<Obstacle>): (r: seq<Obstacle>)
    ensures |r| <= |s|
  {
    if |s| == 0 then s
    else if s[0].OutOfBounds() then Survivors(s[1..])
    else [s[0]] + Survivors(s[1..])
  }

  /** One step of pruning in place: `kept` holds the survivors of the part
      of `s` already visited and `s[j..]` is still to visit. Removing an
      out-of-bounds head, or stepping past an in-bounds one, keeps that shape
      one element further on, and the count of out-of-bounds obstacles still
      to visit drops by the number removed. */
  lemma PruneStep(s: seq<Obstacle>, j: nat, kept: seq<Obstacle>)
    requires j < |s|
    requires kept + Survivors(s[j..]) == Survivors(s)
    ensures s[j].OutOfBounds() ==> kept + Survivors(s[j + 1..]) == Survivors(s)
    ensures !s[j].OutOfBounds() ==> (kept + [s[j]]) + Survivors(s[j + 1..]) == Survivors(s)
    ensures CountOut(s[j..]) == (if s[j].OutOfBounds() then 1 else 0) + CountOut(s[j + 1..])
  {
    assert s[j..][1..] == s[j + 1..];
    if !s[j].OutOfBounds() {
      assert (kept + [s[j]]) + Survivors(s[j + 1..]) == kept + ([s[j]] + Survivors(s[j + 1..]));
    }
  }

  /** Pruning distributes over concatenation, so it keeps relative order. */
  lemma {:induction false} SurvivorsAppend(a: seq<Obstacle>, b: seq<Obstacle>)
    ensures Survivors(a + b) == Survivors(a) + Survivors(b)
  {
    if a == [] {
      assert a + b == b;
    } else {
      assert (a + b)[0] == a[0];
      assert (a + b)[1..] == a[1..] + b;
      SurvivorsAppend(a[1..], b);
    }
  }

  /** An obstacle survives pruning exactly when it was present and in bounds. */
  lemma {:induction false} SurvivorsMembership(s: seq<Obstacle>, o: Obstacle)
    ensures o in Survivors(s) <==> o in s && !o.OutOfBounds()
  {
    if s != [] {
      SurvivorsMembership(s[1..], o);
      assert s == [s[0]] + s[1..];
    }
  }

  /** Pruning a list that is already in bounds removes nothing. */
  lemma {:induction false} SurvivorsOfInBounds(s: seq<Obstacle>)
    requires forall o :: o in s ==> !o.OutOfBounds()
    ensures Survivors(s) == s
  {
    if s != [] {
      assert forall o :: o in s[1..] ==> o in s;
      SurvivorsOfInBounds(s[1..]);
      assert s == [s[0]] + s[1..];
    }
  }

  /** One tick of the list keeps every growth counter in range and, after
      pruning, leaves only obstacles inside the window. */
  lemma AdvanceThenPrune(s: seq<Obstacle>)
    requires forall i :: 0 <= i < |s| ==> s[i].GrowthInRange()
    ensures forall o :: o in Survivors(Advanced(s)) ==> !o.OutOfBounds() && o.GrowthInRange()
  {
    forall o | o in Survivors(Advanced(s))
      ensures !o.OutOfBounds() && o.GrowthInRange()
    {
      SurvivorsMembership(Advanced(s), o);
      var k :| 0 <= k < |s| && Advanced(s)[k] == o;
    }
  }

  /** The number of out-of-bounds obstacles, counted from the front. */
  function CountOut(s: seq<Obstacle>): nat {
    if |s| == 0 then 0 else (if s[0].OutOfBounds() then 1 else 0) + CountOut(s[1..])
  }

  /** Pruning removes exactly the out-of-bounds obstacles, one per count. */
  lemma {:induction false} RemovedCount(s: seq<Obstacle>)
    ensures |s| - |Survivors(s)| == CountOut(s)
  {
    if s != [] {
      RemovedCount(s[1..]);
    }
  }
}
