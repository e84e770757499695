/** The main loop's state as one object: the bird, the ground tile, the
    pipe group and the globals `score`, `game_active` and `show_hitboxes`.
    Every method is proved against the value model in World and keeps the
    invariant of Invariants. */
module GameLoop {
  import opened Settings
  import opened Geometry
  import opened Sprites
  import opened World
  import opened Invariants

  predicate Distinct(ps: seq<Pipe>) {
    forall i, j :: 0 <= i < j < |ps| ==> ps[i] != ps[j]
  }

  lemma NotInPrefix(ps: seq<Pipe>, i: int)
    requires Distinct(ps) && 0 <= i < |ps|
    ensures ps[i] !in ps[..i]
  {
  }

  lemma PrefixStep(ps: seq<Pipe>, i: nat)
    requires i < |ps|
    ensures ps[..i + 1] == ps[..i] + [ps[i]]
  {
  }

  lemma DistinctAppend(ps: seq<Pipe>, p: Pipe)
    requires Distinct(ps) && p !in ps
    ensures Distinct(ps + [p])
  {
  }

  function States(ps: seq<Pipe>): (r: seq<PipeState>)
    reads ps
    ensures |r| == |ps|
  {
    seq(|ps|, i reads ps requires 0 <= i < |ps| => ps[i].State())
  }

  lemma StatesAppend(ps: seq<Pipe>, p: Pipe)
    ensures States(ps + [p]) == States(ps) + [p.State()]
  {
  }

  class Session {
    const sizes: Sizes
    const bird: Bird
    const ground: Ground
    var pipes: seq<Pipe>
    /** In half points. */
    var score: nat
    var gameActive: bool
    var showHitboxes: bool

    function View(): World
      reads this, bird, ground, pipes
    {
      World(bird.State(), ground.rect, States(pipes), score, gameActive, showHitboxes)
    }

    ghost predicate Valid()
      reads this, bird, ground, pipes
    {
      Distinct(pipes) && Consistent(sizes, View())
    }

    constructor (sz: Sizes)
      requires ValidSizes(sz)
      ensures Valid() && View() == Initial(sz) && sizes == sz
    {
      sizes := sz;
      bird := new Bird(sz.birdW, sz.birdH);
      ground := new Ground(0, sz.groundW, sz.groundH);
      pipes := [];
      score := 0;
      gameActive := true;
      showHitboxes := false;
      new;
      InitialConsistent(sz);
    }

    /** One event of the drained queue. */
    method HandleEvent(e: Event)
      requires Valid()
      modifies this, bird
      ensures Valid()
      ensures View() == ApplyEvent(sizes, old(View()), e)
      ensures forall p :: p in pipes ==> p in old(pipes) || fresh(p)
    {
      ghost var before := View();
      match e {
        case KeyDown(k) => KeyDown(k);
        case KeyUp(k) =>
          if k == Space {
            bird.ResetFlap();
          }
        case PipeTimer(gap) => SpawnPipes(gap);
      }
      EventConsistent(sizes, before, e);
    }

    /** A key-down: SPACE flaps while active and restarts while over, H
        toggles the hitbox overlay. */
    method KeyDown(k: Key)
      modifies this, bird
      ensures View() == KeyPressed(old(View()), k)
      ensures pipes == old(pipes) || pipes == []
    {
      if k == Space && gameActive {
        var _ := bird.Flap();
      }
      if k == Space && !gameActive {
        gameActive := true;
        pipes := [];
        bird.rect := bird.rect.WithCenter(SpawnCenterX, SpawnCenterY);
        bird.movement := 0;
        score := 0;
      }
      if k == KeyH {
        showHitboxes := !showHitboxes;
      }
    }

    /** The spawn timer: a new pair while active, nothing while over. */
    method SpawnPipes(gap: GapCentre)
      requires Distinct(pipes) && ValidSizes(sizes)
      modifies this
      ensures Distinct(pipes) && forall p :: p in pipes ==> p in old(pipes) || fresh(p)
      ensures View() == ApplyEvent(sizes, old(View()), PipeTimer(gap))
    {
      if gameActive {
        ghost var before := States(pipes);
        var bottom, top := CreatePipes(gap, sizes.pipeW, sizes.pipeH);
        pipes := pipes + [bottom, top];
        assert States(pipes) == before + [bottom.State(), top.State()];
      }
    }

    /** `pipes.update()`: moves every pipe and keeps those still on screen. */
    method UpdatePipes()
      requires Distinct(pipes)
      modifies this`pipes, pipes
      ensures Distinct(pipes) && forall p :: p in pipes ==> p in old(pipes)
      ensures States(pipes) == Survivors(old(States(pipes)))
    {
      var ps := pipes;
      ghost var before := States(ps);
      var kept: seq<Pipe> := [];
      var i := 0;
      while i < |ps|
        invariant 0 <= i <= |ps| && Distinct(ps)
        invariant forall j :: i <= j < |ps| ==> ps[j].State() == before[j]
        invariant forall p :: p in kept ==> p in ps[..i]
        invariant Distinct(kept)
        invariant States(kept) == Survivors(before[..i])
      {
        var pipe := ps[i];
        NotInPrefix(ps, i);
        assert pipe !in kept;
        ghost var keptStates := States(kept);
        var killed := pipe.Update();
        assert States(kept) == keptStates;
        SurvivorsStep(before, i);
        if !killed {
          DistinctAppend(kept, pipe);
          StatesAppend(kept, pipe);
          kept := kept + [pipe];
        }
        PrefixStep(ps, i);
        i := i + 1;
      }
      assert before[..i] == before;
      pipes := kept;
    }

    /** The collision loop: does any pipe's hitbox collide with the bird? */
    method PipesHit(birdRect: Rect) returns (hit: bool)
      ensures hit == AnyHit(States(pipes), birdRect)
    {
      hit := false;
      var i := 0;
      while i < |pipes|
        invariant 0 <= i <= |pipes|
        invariant hit <==> exists j :: 0 <= j < i && CollidedWith(States(pipes)[j], birdRect)
      {
        var collided := pipes[i].CollidedWith(birdRect);
        assert States(pipes)[i] == pipes[i].State();
        if collided {
          hit := true;
        }
        i := i + 1;
      }
    }

    /** The scoring loop: marks every half that has just passed the bird and
        returns the half points it adds. */
    method ScorePipes(birdLeft: int) returns (gained: nat)
      requires Distinct(pipes)
      modifies pipes
      ensures States(pipes) == Scored(old(States(pipes)), birdLeft)
      ensures gained == NewlyPassed(old(States(pipes)), birdLeft)
    {
      var ps := pipes;
      ghost var before := States(ps);
      gained := 0;
      var i := 0;
      while i < |ps|
        invariant 0 <= i <= |ps|
        invariant forall j :: 0 <= j < i ==> ps[j].State() == ScoreOne(before[j], birdLeft)
        invariant forall j :: i <= j < |ps| ==> ps[j].State() == before[j]
        invariant gained == NewlyPassed(before[..i], birdLeft)
      {
        assert before[..i + 1][..i] == before[..i];
        if ps[i].rect.Right() < birdLeft && !ps[i].passed {
          ps[i].passed := true;
          gained := gained + 1;
        }
        i := i + 1;
      }
      assert before[..i] == before;
    }

    /** The half of one iteration that runs while the game is active. */
    method Tick()
      requires Valid()
      modifies this, bird, ground, pipes
      ensures Valid()
      ensures View() == Step(old(View()))
      ensures forall p :: p in pipes ==> p in old(pipes)
    {
      if gameActive {
        ghost var before := View();
        ActiveTick();
        StepConsistent(sizes, before);
      }
    }

    /** Update the sprites; then the collision loop, the ground test and
        the scoring loop. */
    method ActiveTick()
      requires Distinct(pipes) && gameActive
      modifies this, bird, ground, pipes
      ensures Distinct(pipes) && forall p :: p in pipes ==> p in old(pipes)
      ensures View() == Step(old(View()))
    {
      ghost var entry := pipes;
      MovePhase();
      CheckPhase();
      assert forall j :: 0 <= j < |pipes| ==> pipes[j] in entry;
      ScorePhase();
    }

    method MovePhase()
      requires Distinct(pipes)
      modifies this`pipes, bird, ground, pipes
      ensures Distinct(pipes) && forall p :: p in pipes ==> p in old(pipes)
      ensures View() == Moved(old(View()))
    {
      ghost var birdBefore, pipesBefore := bird.State(), States(pipes);
      bird.Update();
      assert States(pipes) == pipesBefore;
      UpdatePipes();
      assert bird.State() == BirdUpdated(birdBefore);
      ghost var pipesAfter := States(pipes);
      ground.Update();
      assert States(pipes) == pipesAfter == Survivors(pipesBefore);
      assert bird.State() == BirdUpdated(birdBefore);
    }

    method CheckPhase()
      modifies this`gameActive
      ensures View() == Checked(old(View()))
    {
      var hit := PipesHit(bird.rect);
      if hit {
        gameActive := false;
      }
      if bird.rect.Bottom() >= GroundTop {
        gameActive := false;
      }
    }

    method ScorePhase()
      requires Distinct(pipes)
      modifies this`score, pipes
      ensures View() == ScoredWorld(old(View()))
    {
      var gained := ScorePipes(bird.rect.x);
      score := score + gained;
    }

    /** One iteration of the main loop: drain the queue, then tick. */
    method RunFrame(events: seq<Event>)
      requires Valid()
      modifies this, bird, ground, pipes
      ensures Valid()
      ensures View() == Frame(sizes, old(View()), events)
    {
      var i := 0;
      while i < |events|
        invariant 0 <= i <= |events|
        invariant Valid()
        invariant View() == ApplyEvents(sizes, old(View()), events[..i])
        invariant forall p :: p in pipes ==> p in old(pipes) || fresh(p)
      {
        assert events[..i + 1][..i] == events[..i];
        HandleEvent(events[i]);
        i := i + 1;
      }
      assert events[..i] == events;
      assert forall j :: 0 <= j < |pipes| ==> pipes[j] in old(pipes) || fresh(pipes[j]);
      Tick();
    }
  }
}
