/** The invariant every reachable session keeps between loop iterations,
    and the lemmas that every event and every tick preserve it. It says
    that pipes come in (bottom, top) pairs with the fixed gap and hitbox
    inset, that a pipe half is marked passed exactly when it is left of the
    bird, and that the score is a whole number of points. */
module Invariants {
  import opened Settings
  import opened Geometry
  import opened Sprites
  import opened World

  /** The bird's left edge: its column never changes. */
  function BirdLeft(sz: Sizes): int {
    SpawnCenterX - sz.birdW / 2
  }

  predicate WellFormedPipe(p: PipeState, sz: Sizes) {
    p.rect.w == sz.pipeW && p.rect.h == sz.pipeH &&
    p.rect.w >= HitboxShrink && p.rect.h >= HitboxShrink &&
    p.hitbox == p.rect.Inflate(-HitboxShrink, -HitboxShrink)
  }

  /** The two halves of one spawn: same column, same flag, the fixed gap
      between them, centred on a drawable gap centre. */
  predicate IsPair(bottom: PipeState, top: PipeState, sz: Sizes) {
    WellFormedPipe(bottom, sz) && WellFormedPipe(top, sz) &&
    bottom.rect.x == top.rect.x && bottom.passed == top.passed &&
    bottom.rect.y - top.rect.Bottom() == PipeGap &&
    GapMin <= bottom.rect.y - PipeGap / 2 <= GapMax
  }

  /** The group is a sequence of adjacent (bottom, top) pairs. */
  predicate Paired(ps: seq<PipeState>, sz: Sizes)
    decreases |ps|
  {
    if ps == [] then true
    else |ps| >= 2 && IsPair(ps[|ps| - 2], ps[|ps| - 1], sz) && Paired(ps[..|ps| - 2], sz)
  }

  /** Every pipe half is still on screen, and its flag is set exactly when
      it lies strictly left of the bird. */
  predicate Marked(ps: seq<PipeState>, birdLeft: int) {
    forall p :: p in ps ==> !OffScreen(p) && (p.passed <==> p.rect.Right() < birdLeft)
  }

  predicate Consistent(sz: Sizes, w: World) {
    ValidSizes(sz) &&
    w.bird.rect.x == BirdLeft(sz) && w.bird.rect.w == sz.birdW && w.bird.rect.h == sz.birdH &&
    w.ground.y == GroundTop && w.ground.w == sz.groundW && w.ground.h == sz.groundH &&
    w.ground.x <= 0 &&
    Paired(w.pipes, sz) && Marked(w.pipes, w.bird.rect.x) &&
    w.score % 2 == 0
  }

  /** The number of pairs whose halves score in this pass. */
  function PairsPassing(ps: seq<PipeState>, birdLeft: int): nat
    decreases |ps|
  {
    if |ps| < 2 then 0
    else PairsPassing(ps[..|ps| - 2], birdLeft) + (if PassesNow(ps[|ps| - 2], birdLeft) then 1 else 0)
  }

  // ------------------------------------------------------------ pairs

  lemma {:induction false} PairedAppend(s: seq<PipeState>, bottom: PipeState, top: PipeState, sz: Sizes)
    requires Paired(s, sz) && IsPair(bottom, top, sz)
    ensures Paired(s + [bottom, top], sz)
  {
    assert (s + [bottom, top])[..|s|] == s;
  }

  /** Both halves of a pair move together: they stay a pair and leave the
      screen on the same tick. */
  lemma MovedPair(bottom: PipeState, top: PipeState, sz: Sizes)
    requires IsPair(bottom, top, sz)
    ensures IsPair(PipeMoved(bottom), PipeMoved(top), sz)
    ensures OffScreen(PipeMoved(bottom)) <==> OffScreen(PipeMoved(top))
  {
  }

  lemma SurvivorsLastTwo(ps: seq<PipeState>)
    requires |ps| >= 2
    ensures Survivors(ps) == Survivors(ps[..|ps| - 2]) + Kept(ps[|ps| - 2]) + Kept(ps[|ps| - 1])
  {
    assert ps[..|ps| - 1][..|ps| - 2] == ps[..|ps| - 2];
  }

  /** A pair still on screen after the move stays in the group, whole. */
  lemma PairKept(s: seq<PipeState>, bottom: PipeState, top: PipeState, sz: Sizes)
    requires Paired(s, sz) && IsPair(bottom, top, sz) && !OffScreen(PipeMoved(bottom))
    ensures Paired(s + Kept(bottom) + Kept(top), sz)
  {
    MovedPair(bottom, top, sz);
    PairedAppend(s, PipeMoved(bottom), PipeMoved(top), sz);
    assert s + Kept(bottom) + Kept(top) == s + [PipeMoved(bottom), PipeMoved(top)];
  }

  /** A pair that leaves the screen leaves the group, whole. */
  lemma PairDropped(s: seq<PipeState>, bottom: PipeState, top: PipeState, sz: Sizes)
    requires IsPair(bottom, top, sz) && OffScreen(PipeMoved(bottom))
    ensures s + Kept(bottom) + Kept(top) == s
  {
    MovedPair(bottom, top, sz);
    assert Kept(bottom) == [] && Kept(top) == [];
  }

  /** So the pairs leave the group whole and the rest stays paired. */
  lemma {:induction false} SurvivorsPaired(ps: seq<PipeState>, sz: Sizes)
    requires Paired(ps, sz)
    ensures Paired(Survivors(ps), sz)
    decreases |ps|
  {
    if ps != [] {
      var n := |ps|;
      var rest := ps[..n - 2];
      SurvivorsLastTwo(ps);
      SurvivorsPaired(rest, sz);
      if OffScreen(PipeMoved(ps[n - 2])) {
        PairDropped(Survivors(rest), ps[n - 2], ps[n - 1], sz);
      } else {
        PairKept(Survivors(rest), ps[n - 2], ps[n - 1], sz);
      }
    }
  }

  lemma {:induction false} ScoredPaired(ps: seq<PipeState>, sz: Sizes, birdLeft: int)
    requires Paired(ps, sz)
    ensures Paired(Scored(ps, birdLeft), sz)
    decreases |ps|
  {
    if ps != [] {
      var n := |ps|;
      assert Scored(ps, birdLeft)[..n - 2] == Scored(ps[..n - 2], birdLeft);
      ScoredPaired(ps[..n - 2], sz, birdLeft);
    }
  }

  // ------------------------------------------------------------ marks

  /** Moving left keeps "passed only when left of the bird". */
  lemma {:induction false} SurvivorsMarked(ps: seq<PipeState>, birdLeft: int)
    requires forall p :: p in ps ==> (p.passed ==> p.rect.Right() < birdLeft)
    ensures forall q :: q in Survivors(ps) ==> (q.passed ==> q.rect.Right() < birdLeft)
    decreases |ps|
  {
    if ps != [] {
      var init := ps[..|ps| - 1];
      assert forall p :: p in init ==> p in ps;
      SurvivorsMarked(init, birdLeft);
      assert ps[|ps| - 1] in ps;
    }
  }

  /** After the scoring pass the flag is set exactly on the halves left of the bird. */
  lemma {:induction false} ScoredMarked(ps: seq<PipeState>, birdLeft: int)
    requires forall p :: p in ps ==> !OffScreen(p) && (p.passed ==> p.rect.Right() < birdLeft)
    ensures Marked(Scored(ps, birdLeft), birdLeft)
  {
    forall q | q in Scored(ps, birdLeft)
      ensures !OffScreen(q) && (q.passed <==> q.rect.Right() < birdLeft)
    {
      var i :| 0 <= i < |ps| && Scored(ps, birdLeft)[i] == q;
      assert ps[i] in ps;
    }
  }

  // ------------------------------------------------------------ score

  /** The halves of a pair score together: a pass adds two half points, one
      whole point, per pair. */
  lemma {:induction false} PairsScoreTogether(ps: seq<PipeState>, sz: Sizes, birdLeft: int)
    requires Paired(ps, sz)
    ensures NewlyPassed(ps, birdLeft) == 2 * PairsPassing(ps, birdLeft)
    decreases |ps|
  {
    if ps != [] {
      var n := |ps|;
      assert ps[..n - 1][..n - 2] == ps[..n - 2];
      PairsScoreTogether(ps[..n - 2], sz, birdLeft);
    }
  }

  /** Every half point added is one flag set: the flags set after a pass
      are those set before plus the points the pass adds. */
  lemma {:induction false} ScoreCountsFlags(ps: seq<PipeState>, birdLeft: int)
    ensures CountPassed(Scored(ps, birdLeft)) == CountPassed(ps) + NewlyPassed(ps, birdLeft)
    decreases |ps|
  {
    if ps != [] {
      var n := |ps|;
      assert Scored(ps, birdLeft)[..n - 1] == Scored(ps[..n - 1], birdLeft);
      ScoreCountsFlags(ps[..n - 1], birdLeft);
    }
  }

  /** A half scores at most once: a second pass with the bird in the same
      column adds nothing and changes nothing. */
  lemma {:induction false} ScoringOnce(ps: seq<PipeState>, birdLeft: int)
    ensures NewlyPassed(Scored(ps, birdLeft), birdLeft) == 0
    ensures Scored(Scored(ps, birdLeft), birdLeft) == Scored(ps, birdLeft)
    decreases |ps|
  {
    if ps != [] {
      var n := |ps|;
      assert Scored(ps, birdLeft)[..n - 1] == Scored(ps[..n - 1], birdLeft);
      ScoringOnce(ps[..n - 1], birdLeft);
    }
  }

  // ------------------------------------------------------------ collisions and ground

  /** The hitbox lies inside the pipe's rectangle, so a hitbox collision is
      always a visual overlap too (the converse does not hold). */
  lemma HitImpliesOverlap(p: PipeState, sz: Sizes, birdRect: Rect)
    requires WellFormedPipe(p, sz) && CollidedWith(p, birdRect)
    ensures Collide(p.rect, birdRect)
  {
    CollideWithin(p.hitbox, p.rect, birdRect);
  }

  /** A tile at least as wide as the screen and never right of x = 0
      covers the whole width after every update. */
  lemma GroundCovers(g: Rect)
    requires g.w >= ScreenWidth && g.x <= 0
    ensures GroundMoved(g).x <= 0 && GroundMoved(g).Right() >= ScreenWidth
  {
  }

  // ------------------------------------------------------------ preservation

  lemma InitialConsistent(sz: Sizes)
    requires ValidSizes(sz)
    ensures Consistent(sz, Initial(sz))
  {
  }

  /** A freshly spawned pair is on screen, right of the bird and unscored. */
  lemma MarkedAppend(ps: seq<PipeState>, sz: Sizes, birdLeft: int, gap: GapCentre)
    requires ValidSizes(sz) && Marked(ps, birdLeft) && birdLeft <= SpawnCenterX
    ensures var pair := SpawnedPair(gap, sz.pipeW, sz.pipeH);
            Marked(ps + [pair.0, pair.1], birdLeft)
  {
    var pair := SpawnedPair(gap, sz.pipeW, sz.pipeH);
    assert pair.0.rect.Right() >= ScreenWidth && pair.1.rect.Right() >= ScreenWidth;
    forall q | q in ps + [pair.0, pair.1]
      ensures !OffScreen(q) && (q.passed <==> q.rect.Right() < birdLeft)
    {
      if q !in ps {
        assert q == pair.0 || q == pair.1;
      }
    }
  }

  lemma KeyConsistent(sz: Sizes, w: World, k: Key)
    requires Consistent(sz, w)
    ensures Consistent(sz, KeyPressed(w, k))
  {
    var w1 := if k == Space && w.active then w.(bird := BirdFlapped(w.bird)) else w;
    assert Consistent(sz, w1);
    if k == Space && !w1.active {
      var r := Restarted(w1);
      assert r.bird.rect.x == BirdLeft(sz);
      assert Consistent(sz, r);
    }
  }

  lemma TimerConsistent(sz: Sizes, w: World, gap: GapCentre)
    requires Consistent(sz, w)
    ensures Consistent(sz, ApplyEvent(sz, w, PipeTimer(gap)))
  {
    if w.active {
      var pair := SpawnedPair(gap, sz.pipeW, sz.pipeH);
      PairedAppend(w.pipes, pair.0, pair.1, sz);
      MarkedAppend(w.pipes, sz, w.bird.rect.x, gap);
      assert ApplyEvent(sz, w, PipeTimer(gap)) == w.(pipes := w.pipes + [pair.0, pair.1]);
    }
  }

  lemma EventConsistent(sz: Sizes, w: World, e: Event)
    requires Consistent(sz, w)
    ensures Consistent(sz, ApplyEvent(sz, w, e))
  {
    match e
    case KeyDown(k) => KeyConsistent(sz, w, k);
    case KeyUp(k) =>
    case PipeTimer(gap) => TimerConsistent(sz, w, gap);
  }

  lemma {:induction false} EventsConsistent(sz: Sizes, w: World, es: seq<Event>)
    requires Consistent(sz, w)
    ensures Consistent(sz, ApplyEvents(sz, w, es))
    decreases |es|
  {
    if es != [] {
      EventsConsistent(sz, w, es[..|es| - 1]);
      EventConsistent(sz, ApplyEvents(sz, w, es[..|es| - 1]), es[|es| - 1]);
    }
  }

  /** The pipe part of an active tick keeps the group paired, ... */
  lemma {:induction false} PipesTickPaired(ps: seq<PipeState>, sz: Sizes, birdLeft: int)
    requires Paired(ps, sz)
    ensures Paired(Scored(Survivors(ps), birdLeft), sz)
  {
    SurvivorsPaired(ps, sz);
    ScoredPaired(Survivors(ps), sz, birdLeft);
  }

  /** ... keeps every flag marking exactly the halves left of the bird, ... */
  lemma {:induction false} PipesTickMarked(ps: seq<PipeState>, birdLeft: int)
    requires Marked(ps, birdLeft)
    ensures Marked(Scored(Survivors(ps), birdLeft), birdLeft)
  {
    SurvivorsMarked(ps, birdLeft);
    ScoredMarked(Survivors(ps), birdLeft);
  }

  /** ... and adds a whole number of points. */
  lemma {:induction false} PipesTickEven(ps: seq<PipeState>, sz: Sizes, birdLeft: int)
    requires Paired(ps, sz)
    ensures NewlyPassed(Survivors(ps), birdLeft) % 2 == 0
  {
    SurvivorsPaired(ps, sz);
    PairsScoreTogether(Survivors(ps), sz, birdLeft);
    DoubleIsEven(PairsPassing(Survivors(ps), birdLeft));
  }

  lemma DoubleIsEven(k: nat)
    ensures (2 * k) % 2 == 0
  {
  }

  /** What an active tick does to each field. */
  lemma ActiveStep(w: World)
    requires w.active
    ensures var left := w.bird.rect.x;
            Step(w).bird == BirdUpdated(w.bird) && Step(w).ground == GroundMoved(w.ground) &&
            Step(w).pipes == Scored(Survivors(w.pipes), left) &&
            Step(w).score == w.score + NewlyPassed(Survivors(w.pipes), left)
  {
  }

  /** The bird keeps its column and size, and the ground its row and size. */
  lemma SpritesKeepPlace(sz: Sizes, w: World)
    requires Consistent(sz, w)
    ensures BirdUpdated(w.bird).rect.x == w.bird.rect.x
    ensures BirdUpdated(w.bird).rect.w == sz.birdW && BirdUpdated(w.bird).rect.h == sz.birdH
    ensures var g := GroundMoved(w.ground);
            g.y == GroundTop && g.w == sz.groundW && g.h == sz.groundH && g.x <= 0
  {
  }

  /** A tick that adds a whole number of points keeps the score whole. */
  lemma StepEven(w: World)
    requires w.active && w.score % 2 == 0
    requires NewlyPassed(Survivors(w.pipes), w.bird.rect.x) % 2 == 0
    ensures Step(w).score % 2 == 0
  {
    ActiveStep(w);
    EvenSum(Step(w).score, w.score, NewlyPassed(Survivors(w.pipes), w.bird.rect.x));
  }

  lemma EvenSum(s: nat, a: nat, b: nat)
    requires s == a + b && a % 2 == 0 && b % 2 == 0
    ensures s % 2 == 0
  {
  }

  lemma {:induction false} StepConsistent(sz: Sizes, w: World)
    requires Consistent(sz, w)
    ensures Consistent(sz, Step(w))
  {
    if w.active {
      var left := w.bird.rect.x;
      ActiveStep(w);
      SpritesKeepPlace(sz, w);
      PipesTickPaired(w.pipes, sz, left);
      PipesTickMarked(w.pipes, left);
      PipesTickEven(w.pipes, sz, left);
      StepEven(w);
    }
  }

  lemma FrameConsistent(sz: Sizes, w: World, es: seq<Event>)
    requires Consistent(sz, w)
    ensures Consistent(sz, Frame(sz, w, es))
  {
    EventsConsistent(sz, w, es);
    StepConsistent(sz, ApplyEvents(sz, w, es));
  }

  // ------------------------------------------------------------ consequences

  /** The displayed score is never a rounded value, and an active tick adds
      exactly one point per pair that the bird has just cleared. */
  lemma StepScore(sz: Sizes, w: World)
    requires Consistent(sz, w) && w.active
    ensures 2 * DisplayedScore(Step(w).score) == Step(w).score
    ensures DisplayedScore(Step(w).score)
         == DisplayedScore(w.score) + PairsPassing(Survivors(w.pipes), w.bird.rect.x)
  {
    StepConsistent(sz, w);
    SurvivorsPaired(w.pipes, sz);
    PairsScoreTogether(Survivors(w.pipes), sz, w.bird.rect.x);
  }

  /** The score changes only by the flags an active tick sets: one half
      point for each, none otherwise. */
  lemma StepScoreIsFlags(sz: Sizes, w: World)
    requires Consistent(sz, w) && w.active
    ensures Step(w).score - w.score == CountPassed(Step(w).pipes) - CountPassed(Survivors(w.pipes))
  {
    ScoreCountsFlags(Survivors(w.pipes), w.bird.rect.x);
  }
}
