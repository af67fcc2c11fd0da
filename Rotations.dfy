/** Angles in whole degrees, kept within one turn by Java's truncating
    remainder, as the avatar's spin uses them. */
module Rotations {

  /** Java's `a % 360`: it truncates toward zero, so the remainder takes the
      sign of the dividend (Dafny's own `%` is never negative). */
  function JavaRem360(a: int): (r: int)
    ensures -360 < r < 360
    ensures (a - r) % 360 == 0
    ensures a >= 0 ==> r >= 0
    ensures a <= 0 ==> r <= 0
  {
    if a >= 0 then a % 360 else -((-a) % 360)
  }

  /** Adding whole turns does not change the Euclidean remainder. */
  lemma WholeTurns(a: int, q: int)
    ensures (a + 360 * q) % 360 == a % 360
  {
  }

  /** Every value a Rotation can hold: the record's constructor reduces modulo
      360 with the truncating remainder, so a negative value stays negative. */
  type Degrees = v: int | -360 < v < 360

  datatype Rotation = Rotation(value: Degrees) {

    /** The record constructor `new Rotation(v)`. */
    static function Of(v: int): (r: Rotation)
      ensures (v - r.value) % 360 == 0
      ensures v >= 0 ==> r.value >= 0
      ensures v <= 0 ==> r.value <= 0
      ensures -360 < v < 360 ==> r.value == v
    {
      Rotation(JavaRem360(v))
    }

    /** One degree further; 359 wraps to 0, a negative angle just climbs. */
    function Next(): (r: Rotation)
      ensures value >= 0 ==> r.value == (value + 1) % 360
      ensures value < 0 ==> r.value == value + 1
    {
      Of(value + 1)
    }

    /** `k` successive unit steps, the loop body of `next(int)` unrolled. */
    function Advance(k: nat): Rotation {
      if k == 0 then this else Advance(k - 1).Next()
    }

    /** What `next(times)` computes, in closed form: the step count brought
        into [0, 360) by the Euclidean remainder and added; a non-negative sum
        wraps modulo 360, a negative one (from a negative angle) cannot wrap. */
    function Turned(times: int): Rotation {
      var sum := value + times % 360;
      Rotation(if sum <= 0 then sum else sum % 360)
    }

    /** Closed form of `k` unit steps: a non-negative angle wraps modulo 360;
        a negative one climbs to 0 and only then starts wrapping. */
    lemma {:induction false} AdvanceClosedForm(k: nat)
      ensures Advance(k).value == if value + k <= 0 then value + k else (value + k) % 360
    {
      if k > 0 {
        AdvanceClosedForm(k - 1);
        var before := value + k - 1;
        if before > 0 {
          var q := before / 360;
          assert before + 1 == (before % 360 + 1) + 360 * q;
          WholeTurns(before % 360 + 1, q);
        }
      }
    }

    /** For an angle in [0, 359], `next(times)` is addition modulo 360 for every
        integer step count, negative ones included. */
    lemma TurnedIsAddition(times: int)
      requires 0 <= value
      ensures Turned(times).value == (value + times) % 360
      ensures 0 <= Turned(times).value < 360
    {
      var k := times % 360;
      assert value + times == (value + k) + 360 * (times / 360);
      WholeTurns(value + k, times / 360);
    }

    /** Step counts that differ by a whole turn give the same rotation:
        `next(0)`, `next(360)` and `next(-360)` all return this rotation. */
    lemma TurnedPeriodic(times: int)
      ensures Turned(times + 360) == Turned(times)
      ensures Turned(times - 360) == Turned(times)
      ensures times % 360 == 0 ==> Turned(times) == this
    {
    }

    /** The record method `next(int times)`: a negative count is raised by
        whole turns, reduced with `%`, then applied as that many `next()` calls. */
    method NextTimes(times: int) returns (r: Rotation)
      ensures r == Turned(times)
      ensures 0 <= value ==> 0 <= r.value < 360 && r.value == (value + times) % 360
      ensures value < 0 ==> r.value == value + times % 360
    {
      var t := times;
      while t < 0
        invariant t % 360 == times % 360
        decreases -t
      {
        t := 360 + t;
      }
      t := JavaRem360(t);
      r := this;
      for i := 0 to t
        invariant r == Advance(i)
      {
        r := r.Next();
      }
      AdvanceClosedForm(times % 360);
      if 0 <= value {
        TurnedIsAddition(times);
      }
    }
  }
}
