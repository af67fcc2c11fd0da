/** The game object: the mutable fields one iteration of the main loop reads
    and writes, and that iteration as a sequence of in-place updates, each
    proved against the pure description of the tick. */
module Simulation {
  import opened Geometry
  import opened Rotations
  import opened Obstacles
  import opened Players

  /** A counter that can be put back to the value it was created with. */
  class ResettableInt {
    const initial: int
    var current: int

    constructor (initial: int)
      ensures this.initial == initial && current == initial
    {
      this.initial := initial;
      current := initial;
    }

    method Reset()
      modifies this`current
      ensures current == initial
    {
      current := initial;
    }
  }

  class Game {
    var obstacles: seq<Obstacle>
    var playerPos: Vec2
    var playerVelocity: Vec2
    var currentRotation: Rotation
    var doubleJumped: bool
    var movingL: bool
    var movingR: bool
    var running: bool
    var score: int
    const ticksUntilDoubleJump: ResettableInt

    /** The player's part of the fields, as the tick's description sees it. */
    function Player(): PlayerState
      reads this, ticksUntilDoubleJump
    {
      PlayerState(playerPos, playerVelocity, doubleJumped, ticksUntilDoubleJump.current, currentRotation)
    }

    /** Between ticks: the counter resets to 8, the player satisfies its
        invariant, and every remaining obstacle is inside the window with its
        growth counter in range. */
    ghost predicate Valid()
      reads this, ticksUntilDoubleJump
    {
      && ticksUntilDoubleJump.initial == InitialCooldown
      && Inv(Player())
      && forall i :: 0 <= i < |obstacles| ==> !obstacles[i].OutOfBounds() && obstacles[i].GrowthInRange()
    }

    /** A new game: the player centred on the ground at rest, no obstacles,
        score 0, no keys held. */
    constructor ()
      ensures Valid() && fresh(ticksUntilDoubleJump)
      ensures Player() == Start && obstacles == [] && score == 0
      ensures !movingL && !movingR && !running
    {
      obstacles := [];
      playerPos := Vec2(325.0, GroundY);
      playerVelocity := Vec2(0.0, 0.0);
      currentRotation := Rotation(0);
      doubleJumped := false;
      movingL := false;
      movingR := false;
      running := false;
      score := 0;
      ticksUntilDoubleJump := new ResettableInt(InitialCooldown);
    }

    /** The first part of an iteration: the jump impulses and gravity, the
        direction flags, and the new velocity. The velocity update is written
        per component. */
    method Accelerate(keys: Keys)
      modifies this`playerVelocity, this`doubleJumped, this`movingL, this`movingR, ticksUntilDoubleJump`current
      ensures playerVelocity == Accelerated(old(Player()), keys)
      ensures doubleJumped == (old(doubleJumped) || DoubleJump(old(Player()), keys))
      ensures ticksUntilDoubleJump.current == Cooled(old(Player()))
      ensures movingL == keys.a && movingR == keys.d
    {
      ghost var p := Player();
      var grounded := playerPos.y == GroundY;
      var accelerationY := 0.0;
      if keys.space && grounded {
        accelerationY := accelerationY + JumpImpulse.y;
      }
      ticksUntilDoubleJump.current := Max(ticksUntilDoubleJump.current - 1, 0);
      if keys.space && !grounded && !doubleJumped && ticksUntilDoubleJump.current == 0 {
        accelerationY := accelerationY + JumpImpulse.y;
        doubleJumped := true;
      }
      if !grounded {
        accelerationY := accelerationY + Gravity.y;
      }
      assert accelerationY == Acceleration(p, keys).y;
      movingR := keys.d;
      movingL := keys.a;
      playerVelocity := playerVelocity.(y := playerVelocity.y + accelerationY);
    }

    /** The rest of the player's movement: the running flag, the displacement
        with the sideways offsets and the running scale, and the ground clamp,
        which also restores the double jump and its cooldown. */
    method MovePlayer(keys: Keys)
      requires ticksUntilDoubleJump.initial == InitialCooldown
      modifies this`playerPos, this`playerVelocity, this`doubleJumped, this`movingL, this`movingR,
        this`running, ticksUntilDoubleJump`current
      ensures Player() == Move(old(Player()), keys)
      ensures movingL == keys.a && movingR == keys.d && running == keys.shift
    {
      ghost var p := Player();
      Accelerate(keys);
      running := keys.shift;
      var dx := playerVelocity.x;
      if movingL {
        dx := dx + Backwards.x;
      }
      if movingR {
        dx := dx + Sideways.x;
      }
      var instantaneous := if running then Vec2(2.0 * dx, 1.5 * playerVelocity.y) else Vec2(dx, playerVelocity.y);
      assert instantaneous == Instantaneous(p, keys);
      playerPos := playerPos.Plus(instantaneous);
      if playerPos.y >= GroundY {
        playerPos := playerPos.(y := GroundY);
        playerVelocity := playerVelocity.(y := 0.0);
        doubleJumped := false;
        ticksUntilDoubleJump.Reset();
      }
    }

    /** The obstacles of this iteration's random draws are appended. */
    method Spawn(roll: SpawnRoll)
      modifies this`obstacles
      ensures obstacles == old(obstacles) + Spawned(roll)
    {
      if roll.falling {
        obstacles := obstacles + [FallingSquare(0, Vec2(roll.fallX as real, roll.fallY as real))];
      }
      if roll.sliding {
        if roll.slideForwards {
          obstacles := obstacles + [SlidingSquare(Vec2(1.0, GroundY), true)];
        } else {
          obstacles := obstacles + [SlidingSquare(Vec2(WIDTH as real, GroundY), false)];
        }
      }
    }

    /** The wall clamps and the spin, driven by the key flags set earlier in
        the same iteration. */
    method TurnPlayer()
      modifies this`playerPos, this`playerVelocity, this`currentRotation
      ensures Player() == Turn(old(Player()), Keys(false, movingL, movingR, running))
    {
      var angularVelocity := 0;
      if movingR {
        angularVelocity := angularVelocity - 20;
      }
      if movingL {
        angularVelocity := angularVelocity + 20;
      }
      if playerPos.x <= 0.0 {
        playerPos := playerPos.(x := 0.0);
        playerVelocity := playerVelocity.(x := 0.0);
        angularVelocity := 0;
      }
      if playerPos.x >= WIDTH as real {
        playerPos := playerPos.(x := WIDTH as real);
        playerVelocity := playerVelocity.(x := 0.0);
        angularVelocity := 0;
      }
      currentRotation := currentRotation.NextTimes(angularVelocity);
    }

    /** Every obstacle is replaced, in place, by its successor. */
    method AdvanceObstacles()
      modifies this`obstacles
      ensures obstacles == Advanced(old(obstacles))
    {
      for i := 0 to |obstacles|
        invariant |obstacles| == |old(obstacles)|
        invariant forall j :: 0 <= j < i ==> obstacles[j] == old(obstacles)[j].Tick()
        invariant forall j :: i <= j < |obstacles| ==> obstacles[j] == old(obstacles)[j]
      {
        obstacles := obstacles[i := obstacles[i].Tick()];
      }
    }

    /** Walks the list, removing each obstacle outside the window where it
        stands and scoring one point for it. */
    method PruneObstacles()
      modifies this`obstacles, this`score
      ensures obstacles == Survivors(old(obstacles))
      ensures score == old(score) + CountOut(old(obstacles))
    {
      ghost var s := obstacles;
      ghost var j := 0;
      var i := 0;
      while i < |obstacles|
        invariant 0 <= i <= j <= |s| && i <= |obstacles|
        invariant obstacles[i..] == s[j..]
        invariant obstacles[..i] + Survivors(s[j..]) == Survivors(s)
        invariant score + CountOut(s[j..]) == old(score) + CountOut(s)
        decreases |s| - j
      {
        assert obstacles[i] == s[j] && obstacles[i + 1..] == s[j + 1..];
        PruneStep(s, j, obstacles[..i]);
        if obstacles[i].OutOfBounds() {
          obstacles := obstacles[..i] + obstacles[i + 1..];
          score := score + 1;
        } else {
          i := i + 1;
        }
        j := j + 1;
      }
      assert |s[j..]| == 0;
      assert obstacles[..i] == obstacles;
    }

    /** One iteration of the main loop, without drawing and sleeping: the
        player moves as the tick's description says, the new obstacles are
        appended, every obstacle advances, the ones outside the window are
        removed in order and each scores a point. */
    method Tick(keys: Keys, roll: SpawnRoll)
      requires Valid()
      modifies this, ticksUntilDoubleJump
      ensures Valid()
      ensures Player() == Step(old(Player()), keys)
      ensures obstacles == Survivors(Advanced(old(obstacles) + Spawned(roll)))
      ensures score == old(score) + CountOut(Advanced(old(obstacles) + Spawned(roll)))
      ensures movingL == keys.a && movingR == keys.d && running == keys.shift
    {
      ghost var p := Player();
      MovePlayer(keys);
      Spawn(roll);
      ghost var spawned := obstacles;
      ghost var m := Player();
      TurnPlayer();
      TurnReadsDirections(m, Keys(false, movingL, movingR, running), keys);
      StepInv(p, keys);
      AdvanceObstacles();
      PruneObstacles();
      AdvanceThenPrune(spawned);
      assert forall i :: 0 <= i < |obstacles| ==> obstacles[i] in obstacles;
    }
  }
}
