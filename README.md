# Game-loop cores of three small games, in Dafny

This project models the logic at the heart of three small C++ games from a game
development course, and proves properties of that logic.

- **Shooter-platformer primitives** (`timer.dfy`, `animation.dfy`, `gameobject.dfy`):
  - the cooldown/frame `Timer`. It has a fixed cycle length and keeps its overshoot when a cycle completes. Its `timeout` flag is sticky.
  - the sprite-strip `Animation`, which turns a timer's progress into a frame index.
  - the records every game object is made of, with the defaults their constructors give.
- **Dapper Dasher** (`dasher.dfy`), a side-scrolling runner:
  - the strict rectangle overlap test;
  - parallax background layers that scroll and wrap;
  - fireballs that fly in and are sent back;
  - the hero's gravity and jumping;
  - damage on the rising edge of a contact, and death when the health bar is used up.
  
  One pass of the game loop is an imperative method over the entity objects.
- **Axe game** (`axe.dfy`): a circle steered with the keys dodges a square that bounces up and down. One pass of the loop is a pure step function, and the loop itself is a method that updates its variables in place. The main property is an invariant that every frame keeps: the square's speed is ±10, and both the square and the circle stay within one step of the screen.

Two helper modules hold shared code:
- `cmath.dfy` holds the C++ integer operations the games use: `static_cast<int>` truncates toward zero, and `%` keeps the sign of the dividend.
- `geometry.dfy` holds the vector and rectangle records.

Where the C++ code mutates state, the model uses classes:
- `Timer`, `Animation`, `Background` and `Fireball` are classes whose methods change their fields.
- Each class exposes its state as a value through `Value()`.
- Each method's contract ties the new value to a pure function of the old one.
- The properties are proved about those functions.

`currentFrame()` is not clamped (`04-shooter-platformer/src/animation.h:16-18`):
- The frame is proved to be in range only while the timer is within its cycle.
- After a step that leaves `time >= duration`, the frame can reach `frameCount` or more, because `Timer::step` subtracts only one cycle.
- `Animations.OvershootFrameOutOfRange` shows frame 6 of a 4-frame animation after one 2.5 s step.

## Model

| member | source | states |
|---|---|---|
| CMath.Trunc | 02-dapper-dasher/main.cpp:306-307 | the conversion truncates toward zero: the result is the integer part of the value, from below for non-negative values and from above for negative ones |
| CMath.Rem | 02-dapper-dasher/main.cpp:121 | the truncated quotient times the divisor plus the remainder gives back the dividend; the remainder has the sign of the dividend and is smaller in magnitude than the divisor |
| Timers.Advance | 04-shooter-platformer/src/timer.h:11-27 | the step fires iff time plus delta reaches the duration; no time is lost, since the remainder plus one duration per firing equals time plus delta; the duration is unchanged; the timeout flag becomes old flag or fired, so a step never clears it |
| Timers.Cleared | 04-shooter-platformer/src/timer.h:32-35 | reset gives elapsed time 0 and a cleared flag, with the duration unchanged |
| Timers.StepStaysInCycle | 04-shooter-platformer/src/timer.h:12-24 | from within a cycle, a step no longer than one cycle stays within a cycle |
| Timers.LongStepLeavesCycle | 04-shooter-platformer/src/timer.h:17-24 | a step of two cycles or more fires and still leaves the time at or past the duration, because only one duration is subtracted |
| Timers.OvershootExample | 04-shooter-platformer/src/timer.h:12-24 | a 1 s timer stepped by 2.5 s fires and holds 1.5 s |
| Timers.StepAllAccounts | 04-shooter-platformer/src/timer.h:11-27 | over any run of steps each at most one cycle, the timer stays within a cycle, and remainder + timeouts × duration = start + total stepped |
| Timers.TimeoutsCountWholeCycles | 04-shooter-platformer/src/timer.h:11-27 | from a fresh timer of positive length, over steps each at most one cycle, the number of steps that report a timeout is the floor of total time over duration |
| Timers.Timer.constructor | 04-shooter-platformer/src/timer.h:10 | the duration is the given length and the time starts at 0; the flag is left unspecified; the duration is a constant, so no method changes it |
| Timers.Timer.Step | 04-shooter-platformer/src/timer.h:11-27 | the new state and the returned flag are exactly `Advance` of the old state |
| Timers.Timer.IsTimeout | 04-shooter-platformer/src/timer.h:29 | the result is the timer's sticky timeout flag |
| Timers.Timer.GetTime | 04-shooter-platformer/src/timer.h:30 | the result is the time elapsed in the current cycle |
| Timers.Timer.GetDuration | 04-shooter-platformer/src/timer.h:31 | the result is the timer's fixed cycle length |
| Timers.Timer.Reset | 04-shooter-platformer/src/timer.h:32-35 | the new state is `Cleared` of the old one: time 0, no timeout, same duration |
| Animations.Length | 04-shooter-platformer/src/animation.h:14 | an animation's length is the cycle length of its timer |
| Animations.FrameOf | 04-shooter-platformer/src/animation.h:16-18 | while the timer is within its cycle and frames exist, the frame is in `[0, frameCount)` and is the one whose equal slice of the cycle contains the elapsed time |
| Animations.StepAnimation | 04-shooter-platformer/src/animation.h:19 | stepping keeps the frame count and the cycle length |
| Animations.WrapReturnsToFirstFrame | 04-shooter-platformer/src/animation.h:16-19 | a fresh animation stepped by exactly one cycle is back at time 0 and frame 0 |
| Animations.OvershootFrameOutOfRange | 04-shooter-platformer/src/animation.h:16-19 | a 4-frame, 1 s animation stepped by 2.5 s reports frame 6, outside the strip |
| Animations.Animation.Empty | 04-shooter-platformer/src/animation.h:11 | the default animation's value is `EmptyAnimation`: no frames and a fresh zero-length timer at time 0 |
| Animations.Animation.constructor | 04-shooter-platformer/src/animation.h:12 | the animation's value is `NewAnimation`: the given frame count and a fresh timer of the given cycle length at time 0 |
| Animations.Animation.GetLength | 04-shooter-platformer/src/animation.h:14 | the result is `Length` of the animation's value, the length of its timer's cycle |
| Animations.Animation.CurrentFrame | 04-shooter-platformer/src/animation.h:16-18 | the frame is `FrameOf` of the animation's value, so it is a valid index while the timer is within its cycle |
| Animations.Animation.Step | 04-shooter-platformer/src/animation.h:19 | the owned timer is advanced and nothing else changes |
| GameObjects.DefaultPlayerData | 04-shooter-platformer/src/gameobject.h:23 | a player starts idle with a 0.8 s weapon cooldown at time 0 |
| GameObjects.DefaultEnemyData | 04-shooter-platformer/src/gameobject.h:32 | an enemy starts idle with 20 health and a 0.5 s damaged timer at time 0 |
| GameObjects.DefaultBulletData | 04-shooter-platformer/src/gameobject.h:38 | a bullet starts moving |
| GameObjects.DefaultObjectData | 04-shooter-platformer/src/gameobject.h:45-50 | the value-initialised payload holds the three defaults, with the timers' flags zeroed |
| GameObjects.DefaultGameObject | 04-shooter-platformer/src/gameobject.h:85-111 | a default object is a level object at rest at the origin facing right, with no animation selected (index -1, so the selection is valid: unset or naming an existing animation), no texture, no gravity, a collider with all four fields 0, not grounded, a 0.05 s flash timer, not flashing, and animation frame 1 |
| DapperDasher.IsColliding | 02-dapper-dasher/main.cpp:15-24 | for rectangles of positive size, they collide iff on each axis the later start lies before the earlier end |
| DapperDasher.CollidingIffSharedPoint | 02-dapper-dasher/main.cpp:15-24 | rectangles of positive size collide iff some point lies in the interior of both |
| DapperDasher.CollidingIsSymmetric | 02-dapper-dasher/main.cpp:16-17 | the collision test does not depend on argument order |
| DapperDasher.TouchingDoesNotCollide | 02-dapper-dasher/main.cpp:16-17 | rectangles that only share an edge do not collide, because the comparisons are strict |
| DapperDasher.Scroll | 02-dapper-dasher/main.cpp:57-62 | the offset is either the moved offset or 0; it is 0 exactly when a whole copy has scrolled past or the move lands on 0; with a positive width it stays above `-scaledWidth` |
| DapperDasher.ScrollLayer | 02-dapper-dasher/main.cpp:57-66 | the width and speed are kept, the first copy is drawn at the offset, and the second copy right after it |
| DapperDasher.ScrollKeepsScreenCovered | 02-dapper-dasher/main.cpp:48-66 | a screen-wide layer scrolling left with its offset in `(-width, 0]` keeps that range and its two copies keep covering the screen |
| DapperDasher.Background.constructor | 02-dapper-dasher/main.cpp:48-55 | one scaled copy of the texture spans the screen width, and the positions start at 0 |
| DapperDasher.Background.Update | 02-dapper-dasher/main.cpp:57-66 | the new layer value is `ScrollLayer` of the old one |
| DapperDasher.StripFrame | 02-dapper-dasher/main.cpp:120-121 | for non-negative game time, the frame shown is a valid index into the strip |
| DapperDasher.FireSpriteX | 02-dapper-dasher/main.cpp:120-121 | for non-negative time and width, the sprite offset lies between 0 and the start of the last of the 5 frames |
| DapperDasher.FireballNext | 02-dapper-dasher/main.cpp:103-122 | contact time accumulates while colliding and restarts at 0 otherwise; the fireball returns to its start once fully off the left edge or after more than 0.15 s of contact, and otherwise moves by its speed; the sprite offset follows the game time; nothing else changes |
| DapperDasher.Fireball.constructor | 02-dapper-dasher/main.cpp:86-100 | the fireball starts `posOffsetX` past the right edge, not colliding, drawn at 2.5 × one frame of the sheet |
| DapperDasher.Fireball.Update | 02-dapper-dasher/main.cpp:103-122 | the new fireball value is `FireballNext` of the old one |
| DapperDasher.Fireball.TakeTurn | 02-dapper-dasher/main.cpp:329-357 | the returned hit is the rising edge of the contact, and the fireball records the contact, then updates |
| DapperDasher.InitialHero | 02-dapper-dasher/main.cpp:221-232 | the hero starts on the ground, at rest, alive, with a full 200-pixel health bar |
| DapperDasher.HeroSprite | 02-dapper-dasher/main.cpp:301-317 | once a dead hero's death strip reaches its last frame, the offset stays there |
| DapperDasher.HeroMotion | 02-dapper-dasher/main.cpp:256-320 | motion changes neither health, nor death, nor the hit box |
| DapperDasher.RestingHeroStays | 02-dapper-dasher/main.cpp:256-261 | on the ground without a jump, the hero stays exactly at ground level with zero speed |
| DapperDasher.AirborneHeroFalls | 02-dapper-dasher/main.cpp:262-320 | in the air, gravity adds `3400 × dT` to the speed whatever the keys, and the hero moves by the new speed times `dT` |
| DapperDasher.JumpOnlyFromGround | 02-dapper-dasher/main.cpp:289-294 | the jump key changes the speed iff the hero is on the ground and alive, and then the hero is launched upward at -1000 |
| DapperDasher.HeroSpriteInSheet | 02-dapper-dasher/main.cpp:301-317 | for non-negative time, the sprite offset stays within the run strip's last frame |
| DapperDasher.Hit | 02-dapper-dasher/main.cpp:329-334 | a fireball hurts the hero iff its contact this frame is a rising edge against its `colliding` flag |
| DapperDasher.Hits | 02-dapper-dasher/main.cpp:329-342 | count of the fireballs starting a contact, at most their number |
| DapperDasher.Contact | 02-dapper-dasher/main.cpp:329-357 | after its turn, a fireball's contact flag is whether it touched the hit box |
| DapperDasher.Frozen | 02-dapper-dasher/main.cpp:359-362 | after the hero's death a fireball has no speed and is moved out of sight at y = -80 |
| DapperDasher.Death | 02-dapper-dasher/main.cpp:391-402 | the hero is dead iff it was dead or the health bar is used up; a fresh death restarts the sprite; nothing else changes |
| DapperDasher.DamagePerFrame | 02-dapper-dasher/main.cpp:329-342 | a frame costs between 0 and 50 per fireball, and nothing when every fireball was already touching |
| DapperDasher.HeroAfterFrame | 02-dapper-dasher/main.cpp:245-402 | after a frame, the hero's position and speed are those of `HeroMotion`, the hit box sits at half the sprite's height below the new position, health never rises, and the hero is dead iff it was dead or its health is used up |
| DapperDasher.NoHitsWhileTouching | 02-dapper-dasher/main.cpp:329-343 | fireballs that were all already in contact cause no hit |
| DapperDasher.DeathIsFinal | 02-dapper-dasher/main.cpp:391-402 | a dead hero stays dead and takes no more damage |
| DapperDasher.DiesWhenHealthGone | 02-dapper-dasher/main.cpp:391-402 | a living hero dies in a frame iff the hits of that frame use up the health bar |
| DapperDasher.HitsAreRisingEdges | 02-dapper-dasher/main.cpp:329-353 | over any run of frames in which a fireball takes its turns, the hits it causes are the rising edges of its frame-by-frame contacts, counted from its flag as the run began |
| DapperDasher.UnbrokenContactHitsOnce | 02-dapper-dasher/main.cpp:329-353 | a fireball that takes its turns and touches the hit box in every frame of a run hurts the hero once over the run, or not at all if it was already touching |
| DapperDasher.MoveHero | 02-dapper-dasher/main.cpp:256-320 | the step-by-step update of the hero's position, speed and sprite gives `HeroMotion` |
| DapperDasher.ScrollBackgrounds | 02-dapper-dasher/main.cpp:323-357 | every layer is scrolled once, each `ScrollLayer` of its old value |
| DapperDasher.ContactFireballs | 02-dapper-dasher/main.cpp:323-357 | the health drops by 50 per fireball starting a contact, and each fireball becomes `Contact` of its old value |
| DapperDasher.FreezeFireballs | 02-dapper-dasher/main.cpp:358-363 | every fireball becomes `Frozen` of its old value |
| DapperDasher.EntityTurns | 02-dapper-dasher/main.cpp:323-366 | while alive: the health drops by 50 per new contact, the layers scroll and the fireballs take their turns; once dead: the health and layers are unchanged and the fireballs freeze |
| DapperDasher.CheckDeath | 02-dapper-dasher/main.cpp:391-402 | the step-by-step death check gives `Death` |
| DapperDasher.Frame | 02-dapper-dasher/main.cpp:245-402 | one pass of the loop gives the hero `HeroAfterFrame` of the fireballs' old values; when the hero is dead, layers stand still and fireballs freeze; otherwise layers scroll and fireballs take their turns |
| AxeGame.Initial | 01-axe/main.cpp:13-37 | the game starts running, with the circle at the origin and the square at y = 80 moving down at speed 10 |
| AxeGame.CircleSpeed | 01-axe/main.cpp:56 | the speed is 8 with shift held and 4 otherwise |
| AxeGame.CircleBox | 01-axe/main.cpp:46-49 | the circle's box is 50 wide and high, centred on the circle |
| AxeGame.RectBox | 01-axe/main.cpp:51-54 | the square's box is 80 wide and high, at x = 280 with its top at the square's y |
| AxeGame.Touching | 01-axe/main.cpp:80-81 | for boxes that are not degenerate, the inclusive overlap test holds iff the top-left corner of their intersection lies in both |
| AxeGame.TouchingIffSharedPoint | 01-axe/main.cpp:80-81 | boxes that are not degenerate pass the inclusive overlap test iff some integer point lies in both |
| AxeGame.Logic | 01-axe/main.cpp:42-82 | while the game is over nothing changes; otherwise the game-over flag is the overlap of the boxes as the frame began; the square moves by its speed, and the speed is only ever negated |
| AxeGame.MoveAxis | 01-axe/main.cpp:58-72 | with no key the coordinate stays; holding only the key toward 0 moves it by exactly one step when positive; holding only the other key moves it by exactly one step when below the screen size; otherwise it stays; with both keys, the coordinate stays away from the edges, moves forth by one step when at or below 0, and moves back by one step when a back step still leaves it at or past the screen size |
| AxeGame.Restart | 01-axe/main.cpp:88-96 | space during game over clears it and puts the circle at the origin, leaving the square; otherwise nothing changes |
| AxeGame.RunLogic | 01-axe/main.cpp:46-81 | the in-place updates of a running frame give `Logic` of the state |
| AxeGame.StepAxis | 01-axe/main.cpp:58-72 | the in-place move along one axis gives `MoveAxis` |
| AxeGame.MoveRect | 01-axe/main.cpp:75-78 | the square moves by its speed, and the speed is negated exactly when the square is past the bounce line or above the screen |
| AxeGame.Tick | 01-axe/main.cpp:42-96 | one pass of the loop body gives `Step` of the state |
| AxeGame.Step | 01-axe/main.cpp:42-96 | the square moves as the logic says, since a restart never touches it; afterwards the game is over iff the logic ended it and space is not held; a restarted circle is at the origin; a running frame is just the logic |
| AxeGame.Replay | 01-axe/main.cpp:39-99 | every state the loop reaches satisfies the invariant: speed ±10, the square within one step of its band, the circle within 8 of the screen |
| AxeGame.StepKeepsSane | 01-axe/main.cpp:42-96 | every frame keeps the invariant: speed ±10; the square within one step of its bounce band; the circle within 8 of the screen |
| AxeGame.RectStaysInBand | 01-axe/main.cpp:75-78 | the square's top stays in `[-10, 290]` and its speed stays 10 or -10 in every reachable state |
| AxeGame.GameOverFreezes | 01-axe/main.cpp:42 | during game over, a frame without space changes nothing |
| AxeGame.SpaceNeverEndsOver | 01-axe/main.cpp:88-95 | after a frame with space held, the game is never over |
| AxeGame.CircleMovesOneStep | 01-axe/main.cpp:56-72 | in a running game, the circle moves at most one step of the frame's speed on each axis |
| AxeGame.EdgesStopTheCircle | 01-axe/main.cpp:58-72 | at or beyond an edge, holding only the key toward it leaves that coordinate unchanged |
| AxeGame.Play | 01-axe/main.cpp:39-99 | the loop's in-place updates give `Replay` of the frames' keys, and its final state satisfies the invariant |

## Left out

- Drawing, textures, windows, monitors, audio and console output are not modelled. These are the raylib and SDL calls, the grunt sounds and their timing, and the jump sound. They have no effect on the game state that is modelled.
- Key presses and the frame time are parameters, not inputs read from the keyboard or clock. This covers `IsKeyDown` and `GetFrameTime`. When the window closes is the length of the frame sequence.
- The random choice of a hurt grunt (02-dapper-dasher/main.cpp:337) is not modelled: it only selects audio.
- The dasher's `colliding` counter and the choice of the hero's texture are not modelled: they only pick what is drawn (02-dapper-dasher/main.cpp:341, 351, 370-378).
- The dasher's `Entity` base class and the `dynamic_cast` over its entity list are left out. The list is eight background layers followed by two fireballs, so `Frame` processes the layers first and then the fireballs. The layers' vertical positions are always 0 and are not kept.
- Floating-point rounding is not modelled. Floats and doubles are reals, so `DapperDasher.Background.constructor` states a scaled width of exactly the screen width. Overflow of the float-to-int casts is not modelled either.
- DapperDasher.Background.constructor: requires a non-zero texture width. A texture that failed to load gives a division by zero, whose infinite or NaN result reals cannot represent.
- The C++ `Animation` holds its `Timer` by value. Here the class holds a timer object of its own, and copies (such as the animations stored in a `GameObject`) are `AnimationState` values. The model therefore does not capture aliasing between animation copies, which C++ value semantics rules out anyway.
- Animations.Animation.CurrentFrame: the range bound holds only while the timer is within its cycle. The code does not clamp the frame (animation.h:16-18), so after a step that leaves `time >= duration` it can reach `frameCount` or more.
- An uninitialised `timeout` flag is modelled as unspecified: the flag is arbitrary in `Timers.Timer.constructor`, and `unset` parameters stand for it in the value functions. Reading such a flag in C++ is undefined behaviour, which the model does not capture.
- The shooter-platformer's physics, collision resolution, input handling and state machine are not part of this model. Their code lies outside `timer.h`, `animation.h` and `gameobject.h`. The shooter's `main.cpp` and `state.h` are platform glue and are not part of this model.
- The first frame's hit box lies below the sprite's top by the sprite's width, as in the code (02-dapper-dasher/main.cpp:227). From the next frame on, it sits at half the sprite's height. Both are modelled, and no property depends on the first value.
