/** The game session as a value: one loop iteration drains the input
    events and then, while the game is active, advances every sprite and
    checks collisions, the ground and scoring. GameLoop.Session is proved
    against these functions. */
module World {
  import opened Settings
  import opened Geometry
  import opened Sprites

  datatype Key = Space | KeyH | OtherKey

  /** The inputs one iteration can drain. `PipeTimer` is the spawn timer's
      event, carrying the gap centre that the game draws at random. */
  datatype Event = KeyDown(key: Key) | KeyUp(key: Key) | PipeTimer(gapCentre: GapCentre)

  /** Image sizes of the sprites (they come from the image files). */
  datatype Sizes = Sizes(birdW: nat, birdH: nat, pipeW: nat, pipeH: nat, groundW: nat, groundH: nat)

  predicate ValidSizes(sz: Sizes) {
    sz.pipeW >= HitboxShrink && sz.pipeH >= HitboxShrink
  }

  /** score is in half points; `active` is `game_active`. */
  datatype World = World(bird: BirdState, ground: Rect, pipes: seq<PipeState>,
                         score: nat, active: bool, showHitboxes: bool)

  function Initial(sz: Sizes): World {
    World(SpawnBird(sz.birdW, sz.birdH), SpawnGround(0, sz.groundW, sz.groundH), [], 0, true, false)
  }

  /** Restart after game over: the flap latch and the hitbox overlay are
      left as they are. */
  function Restarted(w: World): (r: World)
    ensures r.active && r.pipes == [] && r.score == 0
    ensures r.bird.rect.CenterX() == SpawnCenterX && r.bird.rect.CenterY() == SpawnCenterY
    ensures r.bird.movement == 0
    ensures r.bird.canFlap == w.bird.canFlap && r.showHitboxes == w.showHitboxes
    ensures r.ground == w.ground && r.bird.rect.w == w.bird.rect.w && r.bird.rect.h == w.bird.rect.h
  {
    w.(active := true, pipes := [], bird := BirdRespawned(w.bird), score := 0)
  }

  /** A key-down: the flap test, then the restart test (on the state the
      flap left), then the hitbox toggle. */
  function KeyPressed(w: World, k: Key): (r: World)
    ensures k == OtherKey ==> r == w
    ensures k == KeyH ==> r == w.(showHitboxes := !w.showHitboxes)
    ensures k == Space && w.active ==> r == w.(bird := BirdFlapped(w.bird))
    ensures k == Space && !w.active ==> r == Restarted(w)
  {
    var w1 := if k == Space && w.active then w.(bird := BirdFlapped(w.bird)) else w;
    var w2 := if k == Space && !w1.active then Restarted(w1) else w1;
    if k == KeyH then w2.(showHitboxes := !w2.showHitboxes) else w2
  }

  function ApplyEvent(sz: Sizes, w: World, e: Event): World
    requires ValidSizes(sz)
  {
    match e
    case KeyDown(k) => KeyPressed(w, k)
    case KeyUp(k) => if k == Space then w.(bird := BirdFlapReset(w.bird)) else w
    case PipeTimer(gap) =>
      if w.active then
        var pair := SpawnedPair(gap, sz.pipeW, sz.pipeH);
        w.(pipes := w.pipes + [pair.0, pair.1])
      else w
  }

  /** Draining a queue of events, first to last. */
  function ApplyEvents(sz: Sizes, w: World, es: seq<Event>): World
    requires ValidSizes(sz)
    decreases |es|
  {
    if es == [] then w else ApplyEvent(sz, ApplyEvents(sz, w, es[..|es| - 1]), es[|es| - 1])
  }

  /** `pipes.update()`: every pipe moves; one whose rectangle is then off
      the left edge leaves the group. */
  function Survivors(ps: seq<PipeState>): (r: seq<PipeState>)
    ensures |r| <= |ps|
    ensures forall q :: q in r ==> !OffScreen(q)
    decreases |ps|
  {
    if ps == [] then [] else Survivors(ps[..|ps| - 1]) + Kept(ps[|ps| - 1])
  }

  lemma SurvivorsStep(ps: seq<PipeState>, i: nat)
    requires i < |ps|
    ensures Survivors(ps[..i + 1]) == Survivors(ps[..i]) + Kept(ps[i])
  {
    assert ps[..i + 1][..i] == ps[..i];
  }

  /** A moved pipe leaves the group only when it is off screen, and the
      group gains no pipe that is not a moved old one. */
  lemma {:induction false} SurvivorsExactly(ps: seq<PipeState>)
    ensures forall i :: 0 <= i < |ps| && !OffScreen(PipeMoved(ps[i])) ==> PipeMoved(ps[i]) in Survivors(ps)
    ensures forall q :: q in Survivors(ps) ==> exists p :: p in ps && q == PipeMoved(p)
    decreases |ps|
  {
    if ps != [] {
      var init, last := ps[..|ps| - 1], ps[|ps| - 1];
      SurvivorsExactly(init);
      assert Survivors(ps) == Survivors(init) + Kept(last);
      assert forall i :: 0 <= i < |init| ==> init[i] == ps[i];
      forall q | q in Survivors(ps)
        ensures exists p :: p in ps && q == PipeMoved(p)
      {
        if q in Survivors(init) {
          var p :| p in init && q == PipeMoved(p);
          assert p in ps;
        } else {
          assert q == PipeMoved(last);
        }
      }
    }
  }

  /** What one pipe's update leaves in the group. */
  function Kept(p: PipeState): seq<PipeState> {
    var moved := PipeMoved(p);
    if OffScreen(moved) then [] else [moved]
  }

  predicate AnyHit(ps: seq<PipeState>, birdRect: Rect) {
    exists i :: 0 <= i < |ps| && CollidedWith(ps[i], birdRect)
  }

  /** A pipe half scores when its right edge is strictly left of the
      bird's left edge and it has not scored before. */
  predicate PassesNow(p: PipeState, birdLeft: int) {
    p.rect.Right() < birdLeft && !p.passed
  }

  function ScoreOne(p: PipeState, birdLeft: int): PipeState {
    if PassesNow(p, birdLeft) then p.(passed := true) else p
  }

  function Scored(ps: seq<PipeState>, birdLeft: int): seq<PipeState> {
    seq(|ps|, i requires 0 <= i < |ps| => ScoreOne(ps[i], birdLeft))
  }

  /** The number of half points a scoring pass adds. */
  function NewlyPassed(ps: seq<PipeState>, birdLeft: int): (n: nat)
    ensures n <= |ps|
    decreases |ps|
  {
    if ps == [] then 0
    else NewlyPassed(ps[..|ps| - 1], birdLeft) + (if PassesNow(ps[|ps| - 1], birdLeft) then 1 else 0)
  }

  /** The number of pipe halves whose flag is set. */
  function CountPassed(ps: seq<PipeState>): (n: nat)
    ensures n <= |ps|
    decreases |ps|
  {
    if ps == [] then 0
    else CountPassed(ps[..|ps| - 1]) + (if ps[|ps| - 1].passed then 1 else 0)
  }

  /** `bird_group.update()`, `pipes.update()`, `ground_group.update()`. */
  function Moved(w: World): World {
    w.(bird := BirdUpdated(w.bird), pipes := Survivors(w.pipes), ground := GroundMoved(w.ground))
  }

  /** The collision loop and the ground test: either ends the game. */
  function Checked(w: World): World {
    if AnyHit(w.pipes, w.bird.rect) || w.bird.rect.Bottom() >= GroundTop then w.(active := false) else w
  }

  /** The scoring loop. */
  function ScoredWorld(w: World): World {
    w.(pipes := Scored(w.pipes, w.bird.rect.x), score := w.score + NewlyPassed(w.pipes, w.bird.rect.x))
  }

  /** The active part of one iteration: update the sprites, then the pipe
      collisions and the ground line end the game, and the scoring pass
      runs even on the tick that ends it. Nothing happens while the game
      is over. */
  function Step(w: World): (r: World)
    ensures !w.active ==> r == w
    ensures r.score >= w.score && |r.pipes| <= |w.pipes| && r.showHitboxes == w.showHitboxes
  {
    if !w.active then w else ScoredWorld(Checked(Moved(w)))
  }

  /** One iteration of the main loop. */
  function Frame(sz: Sizes, w: World, es: seq<Event>): World
    requires ValidSizes(sz)
  {
    Step(ApplyEvents(sz, w, es))
  }

  /** `int(score)` for a score of `halves` half points. */
  function DisplayedScore(halves: nat): (points: nat)
    ensures 2 * points <= halves < 2 * points + 2
  {
    halves / 2
  }
}
