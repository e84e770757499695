/** The three sprite kinds of the game: the bird, a pipe half and the
    ground tile. Each class keeps the fields the game mutates; its methods
    are proved against a function on a value view of those fields, and the
    properties of those functions are proved in Physics and Invariants. */
module Sprites {
  import opened Settings
  import opened Geometry

  // ---------------------------------------------------------------- bird

  /** The bird's mutable state: rectangle, vertical movement in quarter
      pixels per tick, and the flap latch. */
  datatype BirdState = BirdState(rect: Rect, movement: int, canFlap: bool)

  /** `rect.y += movement`: the sum y + movement/4 is stored back into an
      integer field, truncated toward zero. */
  function Fall(y: int, movement: int): (r: int)
    ensures 4 * y + movement >= 0 ==> 4 * r <= 4 * y + movement < 4 * r + 4
    ensures 4 * y + movement < 0 ==> 4 * r - 4 < 4 * y + movement <= 4 * r
  {
    Quot(4 * y + movement, 4)
  }

  /** A new bird of the given image size, centred on the spawn point. */
  function SpawnBird(w: nat, h: nat): (b: BirdState)
    ensures b.rect.CenterX() == SpawnCenterX && b.rect.CenterY() == SpawnCenterY
    ensures b.rect.w == w && b.rect.h == h && b.movement == 0 && b.canFlap
  {
    BirdState(Rect(0, 0, w, h).WithCenter(SpawnCenterX, SpawnCenterY), 0, true)
  }

  /** One tick of the bird: gravity, then the move, then the latch is
      released once the bird's bottom reaches the ground line. */
  function BirdUpdated(b: BirdState): BirdState {
    var movement := b.movement + Gravity;
    var rect := b.rect.(y := Fall(b.rect.y, movement));
    BirdState(rect, movement, if rect.Bottom() >= GroundTop then true else b.canFlap)
  }

  function BirdFlapped(b: BirdState): BirdState {
    if b.canFlap then b.(movement := FlapStrength, canFlap := false) else b
  }

  function BirdFlapReset(b: BirdState): BirdState {
    b.(canFlap := true)
  }

  /** What a restart does to the bird: centre back on the spawn point and
      stop; the flap latch is left as it is. */
  function BirdRespawned(b: BirdState): (r: BirdState)
    ensures r.rect.CenterX() == SpawnCenterX && r.rect.CenterY() == SpawnCenterY
    ensures r.rect.w == b.rect.w && r.rect.h == b.rect.h
    ensures r.movement == 0 && r.canFlap == b.canFlap
  {
    b.(rect := b.rect.WithCenter(SpawnCenterX, SpawnCenterY), movement := 0)
  }

  class Bird {
    var rect: Rect
    var movement: int
    var canFlap: bool

    function State(): BirdState
      reads this
    {
      BirdState(rect, movement, canFlap)
    }

    constructor (w: nat, h: nat)
      ensures State() == SpawnBird(w, h)
    {
      rect := Rect(0, 0, w, h).WithCenter(SpawnCenterX, SpawnCenterY);
      movement := 0;
      canFlap := true;
    }

    method Update()
      modifies this
      ensures State() == BirdUpdated(old(State()))
    {
      movement := movement + Gravity;
      rect := rect.(y := Fall(rect.y, movement));
      if rect.Bottom() >= GroundTop {
        canFlap := true;
      }
    }

    /** Returns whether the flap happened (the wing sound is played then). */
    method Flap() returns (flapped: bool)
      modifies this
      ensures State() == BirdFlapped(old(State()))
      ensures flapped == old(canFlap)
    {
      flapped := canFlap;
      if canFlap {
        movement := FlapStrength;
        canFlap := false;
      }
    }

    method ResetFlap()
      modifies this
      ensures State() == BirdFlapReset(old(State()))
    {
      canFlap := true;
    }
  }

  // ---------------------------------------------------------------- pipes

  /** A pipe half: visual rectangle, collision hitbox and the scoring flag. */
  datatype PipeState = PipeState(rect: Rect, hitbox: Rect, passed: bool)

  /** The constructor `Pipe(x, y, inverted)` with an image of size w x h:
      the top (inverted) half hangs with its bottom at y - PipeGap/2, the
      bottom half stands with its top at y + PipeGap/2. */
  function NewPipe(x: int, y: int, inverted: bool, w: nat, h: nat): (p: PipeState)
    requires w >= HitboxShrink && h >= HitboxShrink
    ensures p.rect.w == w && p.rect.h == h && p.rect.CenterX() == x && !p.passed
    ensures inverted ==> p.rect.Bottom() == y - PipeGap / 2
    ensures !inverted ==> p.rect.y == y + PipeGap / 2
    ensures p.hitbox == p.rect.Inflate(-HitboxShrink, -HitboxShrink)
  {
    var image := Rect(0, 0, w, h);
    var rect := if inverted then image.WithMidBottom(x, y - PipeGap / 2)
                else image.WithMidTop(x, y + PipeGap / 2);
    PipeState(rect, rect.Inflate(-HitboxShrink, -HitboxShrink), false)
  }

  /** `create_pipes` for a drawn gap centre h: the (bottom, top) pair at the
      right edge of the screen. */
  function SpawnedPair(gap: GapCentre, w: nat, h: nat): (pair: (PipeState, PipeState))
    requires w >= HitboxShrink && h >= HitboxShrink
    ensures pair.0.rect.x == pair.1.rect.x && pair.0.rect.CenterX() == ScreenWidth
    ensures pair.0.rect.w == pair.1.rect.w == w && pair.0.rect.h == pair.1.rect.h == h
    ensures pair.0.rect.y == gap + PipeGap / 2 && pair.1.rect.Bottom() == gap - PipeGap / 2
    ensures pair.0.rect.y - pair.1.rect.Bottom() == PipeGap
    ensures pair.0.hitbox.y - pair.1.hitbox.Bottom() == PipeGap + HitboxShrink
    ensures pair.0.hitbox == pair.0.rect.Inflate(-HitboxShrink, -HitboxShrink)
    ensures pair.1.hitbox == pair.1.rect.Inflate(-HitboxShrink, -HitboxShrink)
    ensures !pair.0.passed && !pair.1.passed
  {
    (NewPipe(ScreenWidth, gap, false, w, h), NewPipe(ScreenWidth, gap, true, w, h))
  }

  /** `Pipe.update` before the kill test: rect and hitbox move together. */
  function PipeMoved(p: PipeState): PipeState {
    p.(rect := p.rect.(x := p.rect.x - ScrollSpeed),
       hitbox := p.hitbox.(x := p.hitbox.x - ScrollSpeed))
  }

  predicate OffScreen(p: PipeState) {
    p.rect.Right() < 0
  }

  /** `collided_with`: the hitbox, not the visual rectangle, against the bird's rectangle. */
  predicate CollidedWith(p: PipeState, birdRect: Rect) {
    Collide(p.hitbox, birdRect)
  }

  class Pipe {
    var rect: Rect
    var hitbox: Rect
    var passed: bool

    function State(): PipeState
      reads this
    {
      PipeState(rect, hitbox, passed)
    }

    constructor (x: int, y: int, inverted: bool, w: nat, h: nat)
      requires w >= HitboxShrink && h >= HitboxShrink
      ensures State() == NewPipe(x, y, inverted, w, h)
    {
      var image := Rect(0, 0, w, h);
      var r := if inverted then image.WithMidBottom(x, y - PipeGap / 2)
               else image.WithMidTop(x, y + PipeGap / 2);
      rect := r;
      hitbox := r.Inflate(-HitboxShrink, -HitboxShrink);
      passed := false;
    }

    /** Moves the pipe and reports whether it killed itself (left its group). */
    method Update() returns (killed: bool)
      modifies this
      ensures State() == PipeMoved(old(State()))
      ensures killed == OffScreen(State())
    {
      rect := rect.(x := rect.x - ScrollSpeed);
      hitbox := hitbox.(x := hitbox.x - ScrollSpeed);
      killed := rect.Right() < 0;
    }

    method CollidedWith(birdRect: Rect) returns (hit: bool)
      ensures hit == Collide(State().hitbox, birdRect)
    {
      hit := Collide(hitbox, birdRect);
    }
  }

  /** `create_pipes`, with the random gap centre given as an input. */
  method CreatePipes(gap: GapCentre, w: nat, h: nat) returns (bottom: Pipe, top: Pipe)
    requires w >= HitboxShrink && h >= HitboxShrink
    ensures fresh(bottom) && fresh(top) && bottom != top
    ensures (bottom.State(), top.State()) == SpawnedPair(gap, w, h)
  {
    bottom := new Pipe(ScreenWidth, gap, false, w, h);
    top := new Pipe(ScreenWidth, gap, true, w, h);
  }

  // ---------------------------------------------------------------- ground

  /** `Ground(x)`: the tile's top edge on the ground line, centred on x. */
  function SpawnGround(x: int, w: nat, h: nat): (r: Rect)
    ensures r.y == GroundTop && r.CenterX() == x && r.w == w && r.h == h
  {
    Rect(0, 0, w, h).WithMidTop(x, GroundTop)
  }

  /** `Ground.update`: scroll left, and snap back to x = 0 as soon as the
      right edge enters the screen. */
  function GroundMoved(g: Rect): (r: Rect)
    ensures r.y == g.y && r.w == g.w && r.h == g.h
    ensures r.Right() >= ScreenWidth || r.x == 0
    ensures r.x == 0 || r.x == g.x - ScrollSpeed
    ensures g.x - ScrollSpeed + g.w >= ScreenWidth ==> r == g.(x := g.x - ScrollSpeed)
    ensures g.x - ScrollSpeed + g.w < ScreenWidth ==> r == g.(x := 0)
  {
    var moved := g.(x := g.x - ScrollSpeed);
    if moved.Right() < ScreenWidth then moved.(x := 0) else moved
  }

  class Ground {
    var rect: Rect

    constructor (x: int, w: nat, h: nat)
      ensures rect == SpawnGround(x, w, h)
    {
      rect := Rect(0, 0, w, h).WithMidTop(x, GroundTop);
    }

    method Update()
      modifies this
      ensures rect == GroundMoved(old(rect))
    {
      rect := rect.(x := rect.x - ScrollSpeed);
      if rect.Right() < ScreenWidth {
        rect := rect.(x := 0);
      }
    }
  }
}
