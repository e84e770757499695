/** Behaviour of whole loop iterations and event sequences: what a
    restart resets, how the flap latch and the hitbox toggle react to keys,
    that nothing moves while the game is over, and when a tick ends the
    game. */
module Scenarios {
  import opened Settings
  import opened Geometry
  import opened Sprites
  import opened World
  import opened Invariants

  /** SPACE while the game is over restarts it and nothing else. */
  lemma RestartResets(sz: Sizes, w: World)
    requires ValidSizes(sz) && !w.active
    ensures ApplyEvent(sz, w, KeyDown(Space)) == Restarted(w)
  {
  }

  /** Two SPACE presses drained in one iteration while the game is over:
      the first restarts, the second flaps if the latch allows it. */
  lemma SpaceTwiceWhileOver(sz: Sizes, w: World)
    requires ValidSizes(sz) && !w.active
    ensures var r := ApplyEvents(sz, w, [KeyDown(Space), KeyDown(Space)]);
            r.active && r.pipes == [] && r.score == 0 && !r.bird.canFlap &&
            r.bird.movement == (if w.bird.canFlap then FlapStrength else 0) &&
            r.bird.rect.CenterX() == SpawnCenterX && r.bird.rect.CenterY() == SpawnCenterY
  {
    var es := [KeyDown(Space), KeyDown(Space)];
    assert es[..1] == [KeyDown(Space)] && es[..1][..0] == [];
    assert ApplyEvents(sz, w, [KeyDown(Space)]) == ApplyEvent(sz, w, KeyDown(Space));
  }

  /** Holding SPACE: a second key-down with no key-up in between changes
      nothing; after a key-up the next key-down flaps again. */
  lemma HeldSpace(sz: Sizes, w: World)
    requires ValidSizes(sz) && w.active
    ensures ApplyEvents(sz, w, [KeyDown(Space), KeyDown(Space)]) == ApplyEvent(sz, w, KeyDown(Space))
    ensures ApplyEvents(sz, w, [KeyDown(Space), KeyUp(Space), KeyDown(Space)]).bird.movement == FlapStrength
  {
    var twice := [KeyDown(Space), KeyDown(Space)];
    assert twice[..1] == [KeyDown(Space)] && twice[..1][..0] == [];
    var thrice := [KeyDown(Space), KeyUp(Space), KeyDown(Space)];
    assert thrice[..2] == [KeyDown(Space), KeyUp(Space)];
    assert thrice[..2][..1] == [KeyDown(Space)] && thrice[..2][..1][..0] == [];
  }

  /** A flap is applied before the same iteration's gravity: the first
      move after it uses -7 + 0.25 pixels per tick. */
  lemma FlapBeforeGravity(sz: Sizes, w: World)
    requires ValidSizes(sz) && w.active && w.bird.canFlap
    ensures Frame(sz, w, [KeyDown(Space)]).bird.movement == FlapStrength + Gravity
    ensures Frame(sz, w, [KeyDown(Space)]).bird.rect.y == Fall(w.bird.rect.y, FlapStrength + Gravity)
  {
    assert [KeyDown(Space)][..0] == [];
  }

  /** H toggles the overlay in either state and touches nothing else. */
  lemma ToggleHitboxes(sz: Sizes, w: World)
    requires ValidSizes(sz)
    ensures ApplyEvent(sz, w, KeyDown(KeyH)) == w.(showHitboxes := !w.showHitboxes)
    ensures ApplyEvents(sz, w, [KeyDown(KeyH), KeyDown(KeyH)]) == w
  {
    var es := [KeyDown(KeyH), KeyDown(KeyH)];
    assert es[..1] == [KeyDown(KeyH)] && es[..1][..0] == [];
  }

  /** While the game is over and no SPACE is pressed, draining events
      moves nothing, spawns nothing and keeps the score; only the flap
      latch and the overlay flag can change. */
  lemma {:induction false} FrozenEvents(sz: Sizes, w: World, es: seq<Event>)
    requires ValidSizes(sz) && !w.active
    requires forall i :: 0 <= i < |es| ==> es[i] != KeyDown(Space)
    ensures var r := ApplyEvents(sz, w, es);
            !r.active && r.pipes == w.pipes && r.score == w.score && r.ground == w.ground &&
            r.bird.rect == w.bird.rect && r.bird.movement == w.bird.movement
    decreases |es|
  {
    if es != [] {
      FrozenEvents(sz, w, es[..|es| - 1]);
    }
  }

  /** So a whole iteration while the game is over changes none of these either. */
  lemma FrozenWhileOver(sz: Sizes, w: World, es: seq<Event>)
    requires ValidSizes(sz) && !w.active
    requires forall i :: 0 <= i < |es| ==> es[i] != KeyDown(Space)
    ensures var r := Frame(sz, w, es);
            !r.active && r.pipes == w.pipes && r.score == w.score && r.ground == w.ground &&
            r.bird.rect == w.bird.rect && r.bird.movement == w.bird.movement
  {
    FrozenEvents(sz, w, es);
  }

  /** A tick ends the game exactly when, after the sprites move, some
      pipe's hitbox collides with the bird or the bird's bottom reaches the
      ground line. Flying above the top edge is never a failure. */
  lemma GameOverExactly(sz: Sizes, w: World)
    requires Consistent(sz, w) && w.active
    ensures var m := Moved(w);
            (!Step(w).active <==> AnyHit(m.pipes, m.bird.rect) || m.bird.rect.Bottom() >= GroundTop)
    ensures Moved(w).bird.rect.Bottom() >= GroundTop ==> !Step(w).active
    ensures Moved(w).pipes == [] && Moved(w).bird.rect.Bottom() < GroundTop ==> Step(w).active
  {
  }

  /** `b` lies inside the pipe's picture, within one of the four 30-pixel
      bands along its edges that the hitbox leaves out. */
  predicate InMargin(p: PipeState, b: Rect) {
    Within(b, p.rect) &&
    (b.Right() <= p.rect.x + HitboxShrink / 2 || b.x >= p.rect.Right() - HitboxShrink / 2 ||
     b.Bottom() <= p.rect.y + HitboxShrink / 2 || b.y >= p.rect.Bottom() - HitboxShrink / 2)
  }

  /** Touching the ground line releases the flap latch on the same tick
      that ends the game; above it, the tick leaves the latch alone. */
  lemma GroundReleasesLatch(w: World)
    requires w.active
    ensures Moved(w).bird.rect.Bottom() >= GroundTop ==> !Step(w).active && Step(w).bird.canFlap
    ensures Moved(w).bird.rect.Bottom() < GroundTop ==> Step(w).bird.canFlap == w.bird.canFlap
  {
  }

  /** The hitbox inset is forgiving: a bird lying in a pipe's margin does
      not collide with it. */
  lemma MarginIsForgiving(sz: Sizes, p: PipeState, b: Rect)
    requires WellFormedPipe(p, sz) && InMargin(p, b)
    ensures !CollidedWith(p, b)
  {
  }

  /** Such a bird exists and overlaps the picture: a 1 x 1 bird in the
      top-left corner of a new pipe. */
  lemma MarginExample(sz: Sizes, gap: GapCentre)
    requires ValidSizes(sz)
    ensures var p := SpawnedPair(gap, sz.pipeW, sz.pipeH).0;
            var b := Rect(p.rect.x, p.rect.y, 1, 1);
            WellFormedPipe(p, sz) && InMargin(p, b) && Collide(p.rect, b)
  {
  }
}
