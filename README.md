# Flappy Bird clone — a Dafny model of the game loop

This project models the core of a small pygame Flappy Bird clone (`main.py`).
It covers:

- the three sprite kinds: the bird, a pipe half and the ground tile;
- the pipe-pair factory;
- the main loop, which drains the input events (SPACE, H, key-up, the
  pipe-spawn timer) and then, while the game is active, moves every
  sprite, tests collisions and the ground line, and counts score.

The model is stated in exact integers:

- Movement is in quarter pixels per tick. GRAVITY 0.25 is 1 and
  FLAP_STRENGTH -7 is -28.
- The score is in half points.
- `rect.y += movement` stores `y + movement/4` back into an integer
  coordinate truncated toward zero (`Sprites.Fall`).

The game's random gap centre is an input of type `GapCentre` (200..400).
Image sizes are inputs too (`World.Sizes`); a pipe image must be at least
60 × 60 so that `inflate(-60, -60)` keeps a non-negative size.

Modules:

- `Settings`: constants.
- `Geometry`: the parts of pygame's `Rect` the game uses.
- `Sprites`: the `Bird`, `Pipe` and `Ground` classes, each proved against
  a function on a value view of its fields.
- `World`: the whole session as a value (`ApplyEvent`, `Step`, `Frame`).
- `GameLoop.Session`: the loop's state as one object, proved against
  `World`.
- `Physics`: what truncation does to the bird's flight.
- `Invariants`: the invariant `Consistent` that every reachable session
  keeps, and the score lemmas that follow from it.
- `Scenarios`: behaviour of whole events and iterations.

`Consistent` says:

- the pipe group is a sequence of adjacent (bottom, top) pairs from one
  spawn, each with a 150-pixel gap centred in 200..400 and a hitbox inset
  by 30 on every side;
- every pipe half is on screen, and its `passed` flag is set exactly when
  its right edge is left of the bird;
- the score is a whole number of points.

Quirks of the source that the model keeps:

- A flap is applied before the same iteration's gravity.
- The scoring pass still runs on the tick that ends the game.
- A restart leaves `can_flap`, `show_hitboxes` and the spawn timer alone.
- Of the screen's edges, only the ground line ends the game; flying above
  the top never does.
- Two SPACE presses drained in one iteration while the game is over mean
  restart, then flap.

Two consequences of the code worth stating:

- The game uses one ground tile. It scrolls left and snaps back to x = 0
  as soon as its right edge enters the screen.
- Because each move truncates, the bird's height after n ticks from rest
  is not 300 + 0.25·n(n+1)/2. `Physics.FreeFallExact` gives the exact
  value and `Physics.FreeFallFromRest` the bounds.

## Model

| member | source | states |
|---|---|---|
| Geometry.Quot | main.py:71 | storing a sum into an integer coordinate truncates toward zero: the quotient is the floor for non-negative sums and the ceiling for negative ones |
| Geometry.Rect.WithCenter | main.py:63 | assigning `center` keeps the size and puts the centre (with w/2, h/2) on the point |
| Geometry.Rect.WithMidTop | main.py:97 | `midtop` keeps the size, centres horizontally on x and puts the top edge on y |
| Geometry.Rect.WithMidBottom | main.py:95 | `midbottom` keeps the size, centres horizontally on x and puts the bottom edge on y |
| Geometry.Rect.Inflate | main.py:100 | `inflate(dx, dy)` changes the size by (dx, dy); for even amounts it keeps the centre and insets each side by half the amount |
| Geometry.Collide | main.py:110 | `colliderect` as strict overlap on both axes, false for an empty rectangle; it has no contract of its own: `Sprites.Pipe.CollidedWith` and `GameLoop.Session.PipesHit` are proved equal to it, and the lemmas below state its properties |
| Geometry.CollideSymmetric | main.py:110 | `colliderect` does not depend on argument order |
| Geometry.TouchingDoesNotCollide | main.py:110 | rectangles that only share an edge do not collide |
| Geometry.CollideWithin | main.py:100-110 | anything that collides with a rectangle lying inside another also collides with the outer one |
| Sprites.Fall | main.py:71 | the stored y is (4y + movement)/4 truncated toward zero: rounded down on or below the top edge, rounded up above it |
| Sprites.SpawnBird | main.py:60-66 | a new bird is centred on (100, 300), keeps its image size, is at rest and may flap |
| Sprites.BirdRespawned | main.py:173-174 | a restart re-centres the bird on (100, 300) and stops it, and keeps its size and its flap latch |
| Sprites.Bird.constructor | main.py:60-66 | `Bird()` starts in the spawned state |
| Sprites.Bird.Update | main.py:68-78 | gravity is added first, then y moves by the new movement with truncation, then the latch is released when the bottom reaches y = 550 |
| Sprites.Bird.Flap | main.py:80-84 | with the latch released: movement becomes -7 and the latch closes; otherwise nothing changes; it reports whether the wing sound plays |
| Sprites.Bird.ResetFlap | main.py:86-87 | releases the flap latch and changes nothing else |
| Sprites.NewPipe | main.py:90-101 | a pipe half is centred on x; the top half's bottom edge is at y - 75 and the bottom half's top edge at y + 75; the hitbox is the rectangle inflated by (-60, -60); it has not scored |
| Sprites.Pipe.constructor | main.py:90-101 | `Pipe(x, y, inverted)` builds the half that `NewPipe` describes |
| Sprites.Pipe.Update | main.py:103-107 | the rectangle and the hitbox move 3 pixels left together; the pipe is killed exactly when its right edge is then below 0 |
| Sprites.Pipe.CollidedWith | main.py:109-110 | the hitbox, not the picture, is tested against the bird's rectangle |
| Sprites.SpawnedPair | main.py:124-128 | both halves share a column centred on x = 400; the visual gap is exactly 150 pixels around the gap centre; the hitbox gap is 210; neither half has scored |
| Sprites.CreatePipes | main.py:124-128 | returns two fresh, distinct pipe objects in the spawned pair's states |
| Sprites.SpawnGround | main.py:113-116 | `Ground(x)` puts the tile's top edge on y = 550, centred on x, at its image size |
| Sprites.GroundMoved | main.py:118-121 | the tile keeps its row and size; it moves 3 pixels left while its moved right edge still reaches x = 400, and otherwise snaps to x = 0 |
| Sprites.Ground.constructor | main.py:113-116 | `Ground(x)` starts in the spawned state |
| Sprites.Ground.Update | main.py:118-121 | one scroll step as `GroundMoved` describes |
| Physics.FallIsDisplacement | main.py:71 | one move adds movement/4 rounded toward the top edge when the exact position is on screen, and rounded the other way above the screen |
| Physics.FallDirection | main.py:70-71 | positive movement never raises the bird and negative movement never lowers it; movement of at least one pixel always moves it; sub-pixel movement moves it only toward the y = 0 line |
| Physics.GlideShape | main.py:68-78 | over n updates without a flap, movement grows by a quarter pixel per tick; column and size are kept; a released latch stays released |
| Physics.FlightDirection | main.py:68-71 | the k-th move of a glide goes in the direction of the movement used for that move |
| Physics.FreeFallExact | main.py:68-71 | from a non-negative height with non-negative movement, the descent is exactly the sum of the per-tick movements, each rounded down to whole pixels |
| Physics.FloorSumBounds | main.py:70-71 | rounding loses less than one pixel per tick against the exact quarter-pixel sum |
| Physics.FreeFallFromRest | main.py:68-71 | from rest, the descent after n ticks is at most n(n+1)/8 pixels and at least that minus 3n/4 |
| Physics.RestFourTicks | main.py:68-71 | from rest the bird does not move for three ticks and moves one pixel on the fourth |
| World.Restarted | main.py:169-175 | a restart makes the game active, empties the pipes, zeroes the score, re-centres and stops the bird, and keeps the flap latch, the overlay flag, the ground and the bird's size |
| World.KeyPressed | main.py:166-177 | other keys change nothing; H only flips the overlay; SPACE while active is exactly a flap, and SPACE while over is exactly a restart; `GameLoop.Session.KeyDown` is proved equal to it |
| World.ApplyEvent | main.py:161-186 | one drained event; it has no contract of its own: `GameLoop.Session.HandleEvent` is proved equal to it, and `Invariants.EventConsistent` shows it keeps the invariant |
| World.Step | main.py:191-211 | nothing changes while the game is over; the score never drops, the group never grows and the overlay flag is kept; `GameLoop.Session.Tick` is proved equal to it |
| World.Frame | main.py:160-211 | one loop iteration, the events then the tick; it has no contract of its own: `GameLoop.Session.RunFrame` is proved equal to it, and `Invariants.FrameConsistent` shows it keeps the invariant |
| World.DisplayedScore | main.py:223 | `int(score)` for a score in half points: the whole points, rounded down |
| World.Survivors | main.py:103-107 | `pipes.update()` never makes the group longer, and every pipe left in the group is on screen |
| World.SurvivorsExactly | main.py:103-107 | every moved pipe that is still on screen stays in the group, and every pipe in the group is a moved old pipe |
| World.NewlyPassed | main.py:207-211 | a scoring pass adds at most one half point per pipe half |
| World.CountPassed | main.py:101 | the number of set `passed` flags is at most the number of pipe halves |
| Invariants.PairedAppend | main.py:184-186 | appending a freshly spawned pair keeps the group a sequence of pairs |
| Invariants.SurvivorsPaired | main.py:103-107 | both halves of a pair move together and are killed on the same tick, so the group stays a sequence of pairs |
| Invariants.ScoredPaired | main.py:207-211 | the scoring pass keeps the group a sequence of pairs |
| Invariants.SurvivorsMarked | main.py:103-107 | moving left keeps every set flag on a half that is left of the bird |
| Invariants.ScoredMarked | main.py:207-211 | after the scoring pass, a half's flag is set exactly when its right edge is left of the bird |
| Invariants.PairsScoreTogether | main.py:207-211 | the halves of a pair score in the same pass, so a pass adds two half points per pair passed |
| Invariants.ScoreCountsFlags | main.py:207-211 | every half point added sets one flag: the flags set after a pass are those set before plus the points added |
| Invariants.ScoringOnce | main.py:207-211 | a half scores at most once: a second pass with the bird in the same place adds nothing and changes nothing |
| Invariants.HitImpliesOverlap | main.py:100-110 | a hitbox collision implies that the pipe's picture overlaps the bird |
| Invariants.GroundCovers | main.py:118-121 | a tile at least as wide as the screen that starts at or left of x = 0 covers the whole screen width after every scroll step |
| Invariants.InitialConsistent | main.py:143-157 | the session at start-up satisfies the invariant |
| Invariants.EventConsistent | main.py:161-186 | every event keeps the invariant |
| Invariants.EventsConsistent | main.py:161-186 | draining any queue of events keeps the invariant |
| Invariants.PipesTickPaired | main.py:194-211 | the pipes' update and the scoring pass together keep the group a sequence of pairs |
| Invariants.PipesTickMarked | main.py:194-211 | the pipes' update and the scoring pass together keep every flag set exactly on the halves left of the bird |
| Invariants.PipesTickEven | main.py:194-211 | the scoring pass after the update adds a whole number of points |
| Invariants.StepConsistent | main.py:191-211 | the active part of an iteration keeps the invariant |
| Invariants.FrameConsistent | main.py:160-211 | a whole loop iteration keeps the invariant |
| Invariants.StepScore | main.py:207-211 | `int(score)` never rounds: the score stays a whole number, and an active tick raises the displayed score by the number of pairs passed |
| Invariants.StepScoreIsFlags | main.py:207-211 | the score gained in a tick equals the number of flags that tick sets |
| GameLoop.NotInPrefix | main.py:149 | a pipe object occurs in the group once |
| GameLoop.Session.constructor | main.py:143-157 | start-up: the spawned bird and ground, no pipes, score 0, active, overlay off; the invariant holds |
| GameLoop.Session.HandleEvent | main.py:161-186 | one drained event changes the session as `World.ApplyEvent` says and keeps the invariant; the group holds only old or new pipes |
| GameLoop.Session.KeyDown | main.py:166-177 | SPACE flaps while active, then restarts if the game is over; H toggles the overlay |
| GameLoop.Session.SpawnPipes | main.py:183-186 | the spawn timer appends a new pair while active and does nothing while over |
| GameLoop.Session.UpdatePipes | main.py:194 | every pipe moves; those off screen leave the group and the rest keep their order |
| GameLoop.Session.PipesHit | main.py:198-200 | the collision loop reports a hit exactly when some pipe's hitbox collides with the bird |
| GameLoop.Session.ScorePipes | main.py:207-211 | the scoring loop marks exactly the halves that have just passed the bird and returns one half point per mark |
| GameLoop.Session.Tick | main.py:191-211 | the active part of an iteration is `World.Step`: nothing happens while over; otherwise update, collide, ground test, then score even on the tick that ends the game; the invariant is kept |
| GameLoop.Session.ActiveTick | main.py:191-211 | one active tick in three phases, equal to `World.Step` |
| GameLoop.Session.MovePhase | main.py:193-195 | bird, pipes and ground update in this order |
| GameLoop.Session.CheckPhase | main.py:198-204 | a pipe hit or the bird's bottom reaching y = 550 ends the game |
| GameLoop.Session.ScorePhase | main.py:207-211 | the score grows by the half points the pass returns |
| GameLoop.Session.RunFrame | main.py:160-211 | one loop iteration drains the events in order and then ticks, as `World.Frame` says; the invariant is kept |
| Scenarios.RestartResets | main.py:169-175 | SPACE while the game is over restarts it and does nothing else |
| Scenarios.SpaceTwiceWhileOver | main.py:166-175 | two SPACE presses in one drain while over: restart, then a flap if the latch was released |
| Scenarios.HeldSpace | main.py:166-181 | a repeated SPACE with no key-up between changes nothing; after a key-up the next SPACE flaps again |
| Scenarios.FlapBeforeGravity | main.py:166-193 | the first move after a flap uses -7 + 0.25 pixels per tick |
| Scenarios.ToggleHitboxes | main.py:176-177 | H flips the overlay in either state, changes nothing else, and pressing it twice is no change |
| Scenarios.FrozenEvents | main.py:161-186 | while over and without SPACE, draining events moves nothing, spawns nothing and keeps the score |
| Scenarios.FrozenWhileOver | main.py:160-211 | a whole iteration while over and without SPACE changes none of these either |
| Scenarios.GameOverExactly | main.py:197-204 | a tick ends the game exactly when some pipe's hitbox collides with the moved bird or its bottom reaches the ground line |
| Scenarios.GroundReleasesLatch | main.py:76-78 | a tick whose move brings the bird's bottom to y = 550 ends the game and releases the flap latch; a tick that leaves it above y = 550 does not change the latch |
| Scenarios.MarginIsForgiving | main.py:99-110 | a bird lying inside a pipe's picture, within one of the four 30-pixel bands along its edges, does not collide with the pipe |
| Scenarios.MarginExample | main.py:99-110 | such a bird exists and overlaps the picture: a 1 × 1 bird in the top-left corner of a new pipe |

## Left out

- Asset and sound loading (`resource_path`, `load_image`, `load_sound`, main.py:24-56) is file I/O. Image sizes are inputs of type `Sizes`.
- Sound playback is I/O. The wing sound is modelled only as `Bird.Flap`'s `flapped` result. The point sound is modelled only as the count `ScorePipes` returns.
- Drawing is output only and changes no game state: the background, sprites, `display_score`, `draw_hitboxes`, the game-over texts and the bird's image rotation (main.py:74, 130-137, 189, 213-235).
- pygame start-up, the window, `clock.tick(60)`, `set_timer` and PIPE_FREQUENCY are not modelled. The timer's firings are `PipeTimer` events supplied by the caller, so a restart leaves the timer alone by construction.
- QUIT (`pygame.quit`, `sys.exit`) ends the process and is not modelled.
- `random.randint(200, 400)` is replaced by the gap centre given as an input of type `GapCentre`.
- Floating-point movement and score are replaced by exact integers in quarter pixels and half points. These are exact for the game's constants.
- pygame's Rect is modelled as a value held in each object's fields. The model assumes how it behaves:
  - assigning `y` truncates toward zero;
  - `center`, `midtop` and `midbottom` use w/2;
  - `inflate` moves the corner by dx/2 rounded toward zero;
  - `colliderect` is strict overlap and false for empty rectangles.
- pygame's Rect fields are 32-bit C ints, while the model's are unbounded integers. The two differ only if a coordinate leaves the int range, for example the bird's y after very long sustained climbing.
- Rects have no aliasing in the source, and the model has none either.
- A sprite group is modelled as a sequence in insertion order. `kill()` is removal from that sequence, and the bird and ground groups are their single sprite.
- Invariants.StepScoreIsFlags: "the score is 0.5 per pipe half passed" is stated per tick, against the flags that tick sets, and not over the whole history, because passed halves later leave the group.
