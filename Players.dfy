/** One tick of the player's physics as a function of the player's state and
    the keys held: jumping and double jumping, gravity, velocity and position
    integration, the ground and wall clamps, and the spin of the avatar. */
module Players {
  import opened Geometry
  import opened Rotations

  /** The keys sampled at the start of a tick: space jumps, A moves left,
      D moves right, shift runs. */
  datatype Keys = Keys(space: bool, a: bool, d: bool, shift: bool)

  /** Ticks that must pass after leaving the ground before a double jump. */
  const InitialCooldown: int := 8

  /** The jump impulse, pointing up the screen. */
  const JumpImpulse: Vec2 := Vec2(0.0, -20.0)

  /** Horizontal offset added to the velocity while D is held, and its
      negation, added while A is held. */
  const Sideways: Vec2 := Vec2(5.0, 0.0)
  const Backwards: Vec2 := Vec2(-5.0, 0.0)

  /** Everything about the player that one tick reads and writes. */
  datatype PlayerState = PlayerState(
    pos: Vec2,
    vel: Vec2,
    doubleJumped: bool,
    cooldown: int,      // ticks until a double jump is allowed
    rotation: Rotation)

  /** The state a new game starts in: centred, on the ground, at rest. */
  const Start: PlayerState :=
    PlayerState(Vec2(325.0, GroundY), Vec2(0.0, 0.0), false, InitialCooldown, Rotation(0))

  predicate OnGround(p: PlayerState) {
    p.pos.y == GroundY
  }

  function Max(a: int, b: int): int {
    if a >= b then a else b
  }

  /** The cooldown after this tick's decrement, which never goes below zero. */
  function Cooled(p: PlayerState): int {
    Max(p.cooldown - 1, 0)
  }

  /** A jump from the ground fires when space is held while grounded. */
  predicate GroundJump(p: PlayerState, k: Keys) {
    k.space && OnGround(p)
  }

  /** A double jump fires when space is held in the air, none has been used
      since the last landing, and the decremented cooldown has reached zero. */
  predicate DoubleJump(p: PlayerState, k: Keys) {
    k.space && !OnGround(p) && !p.doubleJumped && Cooled(p) == 0
  }

  /** The acceleration of this tick: one jump impulse for each kind of jump
      that fires, and gravity whenever the player was airborne. Every term is
      vertical, so only the y component is built up. */
  function Acceleration(p: PlayerState, k: Keys): Vec2 {
    Vec2(0.0,
      (if GroundJump(p, k) then JumpImpulse.y else 0.0)
      + (if DoubleJump(p, k) then JumpImpulse.y else 0.0)
      + (if OnGround(p) then 0.0 else Gravity.y))
  }

  /** The velocity after this tick's acceleration; it becomes the stored
      velocity unless the ground clamp zeroes its vertical part. */
  function Accelerated(p: PlayerState, k: Keys): Vec2 {
    var a := Acceleration(p, k);
    Vec2(p.vel.x + a.x, p.vel.y + a.y)
  }

  /** The velocity actually applied to the position: the accelerated velocity
      with the sideways offsets of A and D, doubled horizontally and scaled by
      1.5 vertically while running. Only this tick's displacement is altered;
      the stored velocity keeps neither the offsets nor the scaling. */
  function Instantaneous(p: PlayerState, k: Keys): Vec2 {
    var v := Accelerated(p, k);
    var x1 := if k.a then v.x + Backwards.x else v.x;
    var x2 := if k.d then x1 + Sideways.x else x1;
    if k.shift then Vec2(2.0 * x2, 1.5 * v.y) else Vec2(x2, v.y)
  }

  /** The position before the ground clamp. */
  function Unclamped(p: PlayerState, k: Keys): Vec2 {
    var d := Instantaneous(p, k);
    Vec2(p.pos.x + d.x, p.pos.y + d.y)
  }

  /** The ground clamp fires: the player reached or passed the ground. */
  predicate Landed(p: PlayerState, k: Keys) {
    Unclamped(p, k).y >= GroundY
  }

  /** The first half of a tick: jumps, gravity, integration and the ground
      clamp, which also restores the double jump and its cooldown. The player
      ends on the ground exactly when the clamp fired, and every acceleration
      is vertical, so neither the horizontal velocity nor the angle changes. */
  function Move(p: PlayerState, k: Keys): (r: PlayerState)
    ensures r.pos.y <= GroundY
    ensures OnGround(r) <==> Landed(p, k)
    ensures r.vel.x == p.vel.x && r.rotation == p.rotation
    ensures Landed(p, k) ==> r.vel.y == 0.0 && !r.doubleJumped && r.cooldown == InitialCooldown
    ensures !Landed(p, k) ==> r.cooldown == Max(p.cooldown - 1, 0)
    ensures !Landed(p, k) ==> (r.doubleJumped <==> p.doubleJumped || DoubleJump(p, k))
  {
    var vel := Accelerated(p, k);
    var pos := Unclamped(p, k);
    if pos.y >= GroundY then
      PlayerState(pos.(y := GroundY), vel.(y := 0.0), false, InitialCooldown, p.rotation)
    else
      PlayerState(pos, vel, p.doubleJumped || DoubleJump(p, k), Cooled(p), p.rotation)
  }

  /** Degrees per tick the avatar turns: D spins one way, A the other. */
  function Spin(k: Keys): int {
    (if k.d then -20 else 0) + (if k.a then 20 else 0)
  }

  /** The wall clamp is reached at either side of the window. */
  predicate AtWall(pos: Vec2) {
    pos.x <= 0.0 || pos.x >= WIDTH as real
  }

  /** The second half of a tick: the two wall clamps, each of which stops
      horizontal motion and the spin, then the rotation update. The player
      ends between the walls, and only the horizontal coordinates and the
      angle can change. */
  function Turn(p: PlayerState, k: Keys): (r: PlayerState)
    ensures 0.0 <= r.pos.x <= WIDTH as real
    ensures r.pos.y == p.pos.y && r.vel.y == p.vel.y
    ensures r.doubleJumped == p.doubleJumped && r.cooldown == p.cooldown
    ensures AtWall(p.pos) ==> r.vel.x == 0.0 && r.rotation == p.rotation
    ensures !AtWall(p.pos) ==> r.pos == p.pos && r.vel == p.vel
  {
    var left := p.pos.x <= 0.0;
    var pos1 := if left then p.pos.(x := 0.0) else p.pos;
    var vel1 := if left then p.vel.(x := 0.0) else p.vel;
    var right := pos1.x >= WIDTH as real;
    var pos2 := if right then pos1.(x := WIDTH as real) else pos1;
    var vel2 := if right then vel1.(x := 0.0) else vel1;
    var spin := if left || right then 0 else Spin(k);
    p.(pos := pos2, vel := vel2, rotation := p.rotation.Turned(spin))
  }

  /** The second half of a tick reads only the direction keys. */
  lemma TurnReadsDirections(p: PlayerState, k1: Keys, k2: Keys)
    requires k1.a == k2.a && k1.d == k2.d
    ensures Turn(p, k1) == Turn(p, k2)
  {
  }

  /** One whole tick of the player. Whatever the state, the player ends on
      or above the ground and between the two walls. */
  function Step(p: PlayerState, k: Keys): (r: PlayerState)
    ensures r.pos.y <= GroundY
    ensures 0.0 <= r.pos.x <= WIDTH as real
  {
    Turn(Move(p, k), k)
  }

  /** The invariant of the player between ticks. */
  predicate Inv(p: PlayerState) {
    && p.pos.y <= GroundY
    && 0.0 <= p.pos.x <= WIDTH as real
    && p.vel.x == 0.0
    && 0 <= p.cooldown <= InitialCooldown
    && 0 <= p.rotation.value
    && (OnGround(p) ==> p.vel.y == 0.0 && !p.doubleJumped && p.cooldown == InitialCooldown)
  }

  lemma StartInv()
    ensures Inv(Start)
  {
  }

  /** A tick keeps the invariant: every acceleration is vertical and both wall
      clamps zero the horizontal velocity, so it stays 0; the cooldown only
      decreases to 0 or is reset to 8; the angle stays in [0, 359]; and the
      player stands on the ground only right after a landing reset. */
  lemma StepInv(p: PlayerState, k: Keys)
    requires Inv(p)
    ensures Inv(Step(p, k))
  {
    var m := Move(p, k);
    assert m.vel.x == 0.0;
    var spin := if AtWall(m.pos) then 0 else Spin(k);
    m.rotation.TurnedIsAddition(spin);
  }

  /** Grounded-ness is sampled once, before the position moves: the two kinds
      of jump can never fire in the same tick. */
  lemma JumpsExclusive(p: PlayerState, k: Keys)
    ensures !(GroundJump(p, k) && DoubleJump(p, k))
  {
  }

  /** A jump from the ground adds exactly -20 to the vertical velocity and no
      gravity, so the player rises 20 pixels (30 while running), leaves the
      ground with the double jump still unused and the cooldown at 7. */
  lemma GroundedJump(p: PlayerState, k: Keys)
    requires Inv(p) && OnGround(p) && k.space
    ensures Acceleration(p, k) == JumpImpulse
    ensures Step(p, k).vel == Vec2(0.0, -20.0)
    ensures Step(p, k).pos.y == GroundY - (if k.shift then 30.0 else 20.0)
    ensures !OnGround(Step(p, k)) && !Step(p, k).doubleJumped
    ensures Step(p, k).cooldown == InitialCooldown - 1
  {
    assert !DoubleJump(p, k);
    if k.shift {
      assert Unclamped(p, k).y == GroundY - 30.0;
    } else {
      assert Unclamped(p, k).y == GroundY - 20.0;
    }
  }

  /** A new game stands at (325, 540); one tick with only space held moves the
      player straight up to (325, 520) with velocity (0, -20). */
  lemma FirstJump(p: PlayerState)
    requires Inv(p) && p.pos == Start.pos
    ensures Step(p, Keys(true, false, false, false)).pos == Vec2(325.0, 520.0)
    ensures Step(p, Keys(true, false, false, false)).vel == Vec2(0.0, -20.0)
  {
    GroundedJump(p, Keys(true, false, false, false));
  }

  /** Standing still on the ground is a fixed point for the physics: without
      space the player stays put and keeps its jump budget. */
  lemma GroundedIdle(p: PlayerState, k: Keys)
    requires Inv(p) && OnGround(p) && !k.space && !k.a && !k.d
    ensures Step(p, k) == p
  {
    p.rotation.TurnedPeriodic(0);
    assert Unclamped(p, k) == p.pos;
  }

  /** An airborne tick adds gravity (0, 2) to the velocity, less 20 when a
      double jump fires; unless the player lands, that is the new velocity. */
  lemma AirborneGravity(p: PlayerState, k: Keys)
    requires Inv(p) && !OnGround(p)
    ensures Acceleration(p, k) == Vec2(0.0, if DoubleJump(p, k) then -18.0 else 2.0)
    ensures !Landed(p, k) ==> Step(p, k).vel == Vec2(0.0, p.vel.y + Acceleration(p, k).y)
  {
  }

  /** When the ground clamp fires the player stands exactly on the ground at
      vertical rest, the double jump is restored and the cooldown is back to
      its initial 8; when it does not, the player is strictly above the
      ground, the cooldown has decreased towards 0 and the flag only grew. */
  lemma GroundClamp(p: PlayerState, k: Keys)
    ensures Landed(p, k) ==> OnGround(Step(p, k)) && Step(p, k).vel.y == 0.0
    ensures Landed(p, k) ==> !Step(p, k).doubleJumped && Step(p, k).cooldown == InitialCooldown
    ensures !Landed(p, k) ==> Step(p, k).pos.y < GroundY && Step(p, k).cooldown == Max(p.cooldown - 1, 0)
    ensures !Landed(p, k) ==> Step(p, k).doubleJumped == (p.doubleJumped || DoubleJump(p, k))
  {
  }

  /** At a wall the player is held at the boundary with no horizontal
      velocity and does not spin, whatever keys are held. */
  lemma WallClamp(p: PlayerState, k: Keys)
    requires AtWall(Move(p, k).pos)
    ensures Step(p, k).pos.x == (if Move(p, k).pos.x <= 0.0 then 0.0 else WIDTH as real)
    ensures Step(p, k).vel.x == 0.0
    ensures Step(p, k).rotation == p.rotation
  {
    p.rotation.TurnedPeriodic(0);
  }

  /** Away from the walls the avatar turns by the spin of the keys held:
      20 degrees backwards for D, forwards for A. */
  lemma SpinAwayFromWalls(p: PlayerState, k: Keys)
    requires Inv(p) && !AtWall(Move(p, k).pos)
    ensures Step(p, k).rotation.value == (p.rotation.value + Spin(k)) % 360
  {
    p.rotation.TurnedIsAddition(Spin(k));
  }

  /** Holding A and D together cancels both the sideways offsets and the spin:
      the player neither moves horizontally nor turns. */
  lemma OppositeKeysCancel(p: PlayerState, k: Keys)
    requires Inv(p) && k.a && k.d
    ensures Step(p, k).pos.x == p.pos.x
    ensures Step(p, k).rotation == p.rotation
  {
    p.rotation.TurnedPeriodic(0);
  }

  /** A double jump needs the player airborne, the flag clear and the
      cooldown at most 1 before the tick; it sets the flag unless the same
      tick ends in a landing. */
  lemma DoubleJumpGate(p: PlayerState, k: Keys)
    requires DoubleJump(p, k)
    ensures !OnGround(p) && !p.doubleJumped && p.cooldown <= 1
    ensures Step(p, k).doubleJumped || Landed(p, k)
  {
  }

  /** The states a sequence of ticks passes through, last state last. */
  function Run(p: PlayerState, ks: seq<Keys>): PlayerState
    decreases |ks|
  {
    if ks == [] then p else Run(Step(p, ks[0]), ks[1..])
  }

  /** The invariant holds after any number of ticks. */
  lemma {:induction false} RunInv(p: PlayerState, ks: seq<Keys>)
    requires Inv(p)
    ensures Inv(Run(p, ks))
    decreases |ks|
  {
    if ks != [] {
      StepInv(p, ks[0]);
      RunInv(Step(p, ks[0]), ks[1..]);
    }
  }

  /** No tick of the run ends in a landing. */
  predicate Airborne(p: PlayerState, ks: seq<Keys>)
    decreases |ks|
  {
    ks == [] || (!Landed(p, ks[0]) && Airborne(Step(p, ks[0]), ks[1..]))
  }

  /** How many double jumps fire during the run. */
  function DoubleJumps(p: PlayerState, ks: seq<Keys>): nat
    decreases |ks|
  {
    if ks == [] then 0
    else (if DoubleJump(p, ks[0]) then 1 else 0) + DoubleJumps(Step(p, ks[0]), ks[1..])
  }

  /** Between two landings at most one double jump fires, and none once the
      double jump has been used. Only the ticks before the last must stay in
      the air: the last tick may end in a landing, and a double jump that
      fires on it still counts. */
  lemma {:induction false} AtMostOneDoubleJump(p: PlayerState, ks: seq<Keys>)
    requires |ks| > 0 && Airborne(p, ks[..|ks| - 1])
    ensures DoubleJumps(p, ks) <= (if p.doubleJumped then 0 else 1)
    decreases |ks|
  {
    var q := Step(p, ks[0]);
    if |ks| > 1 {
      assert ks[..|ks| - 1][1..] == ks[1..][..|ks[1..]| - 1];
      GroundClamp(p, ks[0]);
      AtMostOneDoubleJump(q, ks[1..]);
      if DoubleJump(p, ks[0]) {
        assert q.doubleJumped;
      }
    }
  }

  /** No double jump fires while the cooldown has more than one tick to run:
      after a landing resets it to 8, the earliest double jump is on the
      eighth tick. */
  lemma {:induction false} NoEarlyDoubleJump(p: PlayerState, ks: seq<Keys>)
    requires Inv(p) && |ks| < p.cooldown
    ensures DoubleJumps(p, ks) == 0
    decreases |ks|
  {
    if ks != [] {
      var q := Step(p, ks[0]);
      StepInv(p, ks[0]);
      GroundClamp(p, ks[0]);
      NoEarlyDoubleJump(q, ks[1..]);
    }
  }
}
