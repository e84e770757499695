/** Properties of the bird's motion. Because every move truncates y plus
    movement/4 back to an integer, the bird's height is not the running sum
    of its velocities; these lemmas state what it is instead. */
module Physics {
  import opened Settings
  import opened Sprites

  /** The pixels one move adds to y: movement/4 rounded down while the
      exact new position is on or below the top edge of the screen
      (non-negative), rounded up when it is above the top edge. */
  function Displacement(y: int, movement: int): int {
    if 4 * y + movement >= 0 then movement / 4 else -((-movement) / 4)
  }

  lemma FallIsDisplacement(y: int, movement: int)
    ensures Fall(y, movement) == y + Displacement(y, movement)
  {
  }

  /** Which way one move goes. Slow movement (under one pixel per tick)
      moves the bird by one pixel toward the origin or not at all. */
  lemma FallDirection(y: int, m: int)
    ensures m >= 0 ==> Fall(y, m) >= y
    ensures m >= 4 ==> Fall(y, m) > y
    ensures m <= 0 ==> Fall(y, m) <= y
    ensures m <= -4 ==> Fall(y, m) < y
    ensures -4 < m < 0 ==> (Fall(y, m) < y <==> 4 * y + m >= 0)
    ensures 0 < m < 4 ==> (Fall(y, m) > y <==> y < 0)
  {
  }

  /** n consecutive bird updates with no flap in between. */
  function Glide(b: BirdState, n: nat): BirdState
    decreases n
  {
    if n == 0 then b else Glide(BirdUpdated(b), n - 1)
  }

  lemma {:induction false} GlideSucc(b: BirdState, n: nat)
    ensures Glide(b, n + 1) == BirdUpdated(Glide(b, n))
    decreases n
  {
    if n > 0 {
      GlideSucc(BirdUpdated(b), n - 1);
    }
  }

  /** Gravity adds one quarter pixel per tick to the movement; the column,
      the size and a released flap latch are kept. */
  lemma {:induction false} GlideShape(b: BirdState, n: nat)
    ensures Glide(b, n).movement == b.movement + n * Gravity
    ensures Glide(b, n).rect.x == b.rect.x
    ensures Glide(b, n).rect.w == b.rect.w && Glide(b, n).rect.h == b.rect.h
    ensures b.canFlap ==> Glide(b, n).canFlap
    decreases n
  {
    if n > 0 {
      GlideShape(BirdUpdated(b), n - 1);
    }
  }

  /** The direction of the (k+1)-th move of a glide, by the movement it uses. */
  lemma FlightDirection(b: BirdState, k: nat)
    ensures var before := Glide(b, k).rect.y;
            var after := Glide(b, k + 1).rect.y;
            var m := b.movement + (k + 1) * Gravity;
            (m <= -4 ==> after < before) && (m <= 0 ==> after <= before) &&
            (m >= 0 ==> after >= before) && (m >= 4 ==> after > before)
  {
    GlideSucc(b, k);
    GlideShape(b, k);
    FallDirection(Glide(b, k).rect.y, b.movement + (k + 1) * Gravity);
  }

  /** The running sum, in quarter pixels, of the movements m+1, ..., m+n. */
  function QuarterSum(m: int, n: nat): int
    decreases n
  {
    if n == 0 then 0 else (m + 1) + QuarterSum(m + 1, n - 1)
  }

  /** The same movements, each rounded down to whole pixels. */
  function FloorSum(m: int, n: nat): int
    decreases n
  {
    if n == 0 then 0 else (m + 1) / 4 + FloorSum(m + 1, n - 1)
  }

  lemma {:induction false} QuarterSumClosedForm(m: int, n: nat)
    ensures 2 * QuarterSum(m, n) == n * (2 * m + n + 1)
    decreases n
  {
    if n > 0 {
      QuarterSumClosedForm(m + 1, n - 1);
      calc {
        2 * QuarterSum(m, n);
        2 * (m + 1) + (n - 1) * (2 * m + n + 2);
        { assert (n - 1) * (2 * m + n + 2) == n * (2 * m + n + 1) - 2 * m - 2; }
        n * (2 * m + n + 1);
      }
    }
  }

  /** A bird falling from a non-negative height with non-negative movement
      descends by exactly the movements rounded down to whole pixels. */
  lemma {:induction false} FreeFallExact(b: BirdState, n: nat)
    requires b.rect.y >= 0 && b.movement >= 0
    ensures Glide(b, n).rect.y == b.rect.y + FloorSum(b.movement, n)
    decreases n
  {
    if n > 0 {
      FreeFallExact(BirdUpdated(b), n - 1);
    }
  }

  /** Rounding loses less than a pixel per tick: 4 * descent lies between
      the exact quarter-pixel sum minus 3n and that sum. */
  lemma {:induction false} FloorSumBounds(m: int, n: nat)
    ensures QuarterSum(m, n) - 3 * n <= 4 * FloorSum(m, n) <= QuarterSum(m, n)
    decreases n
  {
    if n > 0 {
      FloorSumBounds(m + 1, n - 1);
    }
  }

  /** Free fall from rest: after n ticks the bird has descended at most
      GRAVITY * n(n+1)/2 pixels and less than that by at most 3n/4. */
  lemma FreeFallFromRest(b: BirdState, n: nat)
    requires b.rect.y >= 0 && b.movement == 0
    ensures var descent := Glide(b, n).rect.y - b.rect.y;
            n * (n + 1) - 6 * n <= 8 * descent <= n * (n + 1)
  {
    FreeFallExact(b, n);
    FloorSumBounds(0, n);
    QuarterSumClosedForm(0, n);
  }

  /** From rest, the first three ticks do not move the bird at all and the
      fourth moves it one pixel, where the running sum of velocities
      (0.25 + 0.5 + 0.75 + 1.0) would be 2.5 pixels. */
  lemma RestFourTicks(b: BirdState)
    requires b.rect.y >= 0 && b.movement == 0
    ensures Glide(b, 3).rect.y == b.rect.y
    ensures Glide(b, 4).rect.y == b.rect.y + 1
  {
    FreeFallExact(b, 3);
    FreeFallExact(b, 4);
  }
}
