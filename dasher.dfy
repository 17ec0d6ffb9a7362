/** Dapper Dasher (02-dapper-dasher/main.cpp): a side-scrolling runner. Parallax background
    layers scroll to the left and wrap around; fireballs fly toward the hero and come back
    from the right; the hero falls under gravity, can jump from the ground, loses health on
    each new contact with a fireball, and dies when the health bar is used up. */
module DapperDasher {
  import opened Geometry
  import opened CMath

  const ScreenWidth: int := 800
  const ScreenHeight: int := 450

  // ---------------------------------------------------------------------------------------
  // Collision

  /** `isColliding`: the rectangles overlap on both axes, strictly, so rectangles that only
      share an edge do not collide. For rectangles of positive size, that is: on each axis
      the later of the two starts lies before the earlier of the two ends. */
  function IsColliding(a: Rect, b: Rect): (r: bool)
    ensures a.width > 0.0 && a.height > 0.0 && b.width > 0.0 && b.height > 0.0 ==>
      (r <==> Max(a.x, b.x) < Min(a.x + a.width, b.x + b.width) && Max(a.y, b.y) < Min(a.y + a.height, b.y + b.height))
  {
    var xOverlap := a.x + a.width > b.x && b.x + b.width > a.x;
    var yOverlap := a.y + a.height > b.y && b.y + b.height > a.y;
    xOverlap && yOverlap
  }

  /** The point lies in the interior of the rectangle. */
  predicate Inside(r: Rect, px: real, py: real) {
    r.x < px < r.x + r.width && r.y < py < r.y + r.height
  }

  function Max(a: real, b: real): real { if a < b then b else a }
  function Min(a: real, b: real): real { if a < b then a else b }

  /** For rectangles of positive size, colliding means having an interior point in common. */
  lemma CollidingIffSharedPoint(a: Rect, b: Rect)
    requires a.width > 0.0 && a.height > 0.0 && b.width > 0.0 && b.height > 0.0
    ensures IsColliding(a, b) <==> exists px, py :: Inside(a, px, py) && Inside(b, px, py)
  {
    if IsColliding(a, b) {
      var px := (Max(a.x, b.x) + Min(a.x + a.width, b.x + b.width)) / 2.0;
      var py := (Max(a.y, b.y) + Min(a.y + a.height, b.y + b.height)) / 2.0;
      assert Inside(a, px, py) && Inside(b, px, py);
    }
  }

  lemma CollidingIsSymmetric(a: Rect, b: Rect)
    ensures IsColliding(a, b) == IsColliding(b, a)
  {
  }

  /** Rectangles that touch along an edge do not collide. */
  lemma TouchingDoesNotCollide(a: Rect, b: Rect)
    requires a.x + a.width == b.x || a.y + a.height == b.y
    ensures !IsColliding(a, b) && !IsColliding(b, a)
  {
  }

  // ---------------------------------------------------------------------------------------
  // Background layers

  /** The value of a background layer: the width of one copy of its texture once scaled to
      the screen, its speed, and where its two copies are drawn. */
  datatype Layer = Layer(scaledWidth: real, velocity: int, xPos: real, firstPosX: real, secondPosX: real)

  /** The position of a layer after `Background::update`: moved left by `velocity * dT`,
      and back to 0 once a whole copy has scrolled off the screen. Whenever the copies have
      a positive width, the first copy still reaches onto the screen afterwards. */
  function Scroll(xPos: real, velocity: int, scaledWidth: real, dT: real): (r: real)
    ensures r == 0.0 || r == xPos - velocity as real * dT
    ensures r == 0.0 <==> xPos - velocity as real * dT <= -scaledWidth || xPos - velocity as real * dT == 0.0
    ensures scaledWidth > 0.0 ==> -scaledWidth < r
  {
    var moved := xPos - velocity as real * dT;
    if moved <= -scaledWidth then 0.0 else moved
  }

  /** `Background::update`: the second copy is drawn right after the first. */
  function ScrollLayer(l: Layer, dT: real): (r: Layer)
    ensures r.scaledWidth == l.scaledWidth && r.velocity == l.velocity
    ensures r.xPos == Scroll(l.xPos, l.velocity, l.scaledWidth, dT)
    ensures r.firstPosX == r.xPos && r.secondPosX == r.xPos + r.scaledWidth
  {
    var x := Scroll(l.xPos, l.velocity, l.scaledWidth, dT);
    l.(xPos := x, firstPosX := x, secondPosX := x + l.scaledWidth)
  }

  /** The two copies side by side cover the whole screen width. */
  predicate CoversScreen(l: Layer) {
    l.firstPosX <= 0.0 && l.secondPosX == l.firstPosX + l.scaledWidth
    && l.secondPosX + l.scaledWidth >= ScreenWidth as real
  }

  /** A layer scrolling left (or standing still) that has been updated once keeps covering
      the screen: its offset stays in `(-scaledWidth, 0]`. */
  lemma ScrollKeepsScreenCovered(l: Layer, dT: real)
    requires l.scaledWidth == ScreenWidth as real
    requires -l.scaledWidth < l.xPos <= 0.0 && l.velocity as real * dT >= 0.0
    ensures -l.scaledWidth < ScrollLayer(l, dT).xPos <= 0.0
    ensures CoversScreen(ScrollLayer(l, dT))
  {
  }

  /** A background layer (`Background`). Its texture is scaled so one copy spans the
      screen. The vertical position of both copies is always 0 and is not kept. */
  class Background {
    const textureScale: real
    const scaledWidth: real
    const velocity: int
    var firstPosX: real
    var secondPosX: real
    var xPos: real

    function Value(): Layer
      reads this
    {
      Layer(scaledWidth, velocity, xPos, firstPosX, secondPosX)
    }

    /** `Background(texture, velocity)`; only the texture's width matters here. */
    constructor (textureWidth: int, velocity: int)
      requires textureWidth != 0
      ensures scaledWidth == ScreenWidth as real && this.velocity == velocity
      ensures xPos == 0.0 && firstPosX == 0.0 && secondPosX == 0.0
    {
      textureScale := ScreenWidth as real / textureWidth as real;
      scaledWidth := textureWidth as real * (ScreenWidth as real / textureWidth as real);
      this.velocity := velocity;
      firstPosX := 0.0;
      secondPosX := 0.0;
      xPos := 0.0;
    }

    method Update(dT: real)
      modifies this
      ensures Value() == ScrollLayer(old(Value()), dT)
    {
      xPos := xPos - velocity as real * dT;
      if xPos <= -scaledWidth {
        xPos := 0.0;
      }
      firstPosX := xPos;
      secondPosX := xPos + scaledWidth;
    }
  }

  // ---------------------------------------------------------------------------------------
  // Fireballs

  /** Frames in the fireball sprite sheet. */
  const FireFrames: int := 5
  /** How long a fireball may stay in contact with the hero before it is sent back. */
  const ContactLimit: real := 0.15

  /** The value of a fireball. */
  datatype FireballState = FireballState(
    velocity: int,
    colliding: bool,
    srcRect: Rect,
    initialPosX: real,
    initialPosY: real,
    destRect: Rect,
    collidingDuration: real)

  /** The frame of an `n`-frame strip shown at game time `elapsed` when each frame lasts
      `period` seconds: the integer quotient, truncated, modulo `n`. */
  function StripFrame(elapsed: real, period: real, n: int): (k: int)
    requires period > 0.0 && n > 0
    ensures elapsed >= 0.0 ==> 0 <= k < n
  {
    var q := elapsed / period;
    if elapsed >= 0.0 then
      QuotientNonNegative(elapsed, period);
      Rem(Trunc(q), n)
    else
      Rem(Trunc(q), n)
  }

  lemma QuotientNonNegative(a: real, d: real)
    requires a >= 0.0 && d > 0.0
    ensures a / d >= 0.0
  {
    var q := a / d;
    assert q * d == a;
    if q < 0.0 {
      assert false;
    }
  }

  /** Where frame `frame` of a strip of frames `width` wide starts in the sheet. */
  function Offset(width: real, frame: int): real {
    width * frame as real
  }

  /** The sprite offset for the elapsed game time: 12 frames a second through the strip. */
  function FireSpriteX(width: real, elapsed: real): (x: real)
    ensures elapsed >= 0.0 && width >= 0.0 ==> 0.0 <= x <= Offset(width, FireFrames - 1)
  {
    var frame := StripFrame(elapsed, 1.0 / 12.0, FireFrames);
    if elapsed >= 0.0 && width >= 0.0 then
      StripBounds(width, frame, FireFrames);
      Offset(width, frame)
    else
      Offset(width, frame)
  }

  /** `Fireball::update`. */
  function FireballNext(f: FireballState, dT: real, elapsed: real): (r: FireballState)
    // contact time accumulates while colliding and starts over otherwise
    ensures r.collidingDuration == if f.colliding then f.collidingDuration + dT else 0.0
    // sent back to the right once fully off the left edge or after a long contact, else moved
    ensures var moved := f.destRect.x + f.velocity as real * dT;
      if moved < -f.destRect.width || r.collidingDuration > ContactLimit
      then r.destRect.x == f.initialPosX
      else r.destRect.x == moved
    ensures r.srcRect.x == FireSpriteX(f.srcRect.width, elapsed)
    ensures r.destRect == f.destRect.(x := r.destRect.x) && r.srcRect == f.srcRect.(x := r.srcRect.x)
    ensures r.velocity == f.velocity && r.colliding == f.colliding
    ensures r.initialPosX == f.initialPosX && r.initialPosY == f.initialPosY
  {
    var duration := if f.colliding then f.collidingDuration + dT else 0.0;
    var moved := f.destRect.x + f.velocity as real * dT;
    var x := if moved < -f.destRect.width then f.initialPosX else moved;
    var x' := if duration > ContactLimit then f.initialPosX else x;
    f.(collidingDuration := duration,
       destRect := f.destRect.(x := x'),
       srcRect := f.srcRect.(x := FireSpriteX(f.srcRect.width, elapsed)))
  }

  /** A fireball (`Fireball`). */
  class Fireball {
    var srcRect: Rect
    const initialPosY: real
    const initialPosX: real
    var velocity: int
    var colliding: bool
    var destRect: Rect
    var collidingDuration: real

    function Value(): FireballState
      reads this
    {
      FireballState(velocity, colliding, srcRect, initialPosX, initialPosY, destRect, collidingDuration)
    }

    /** `Fireball(velocity, posOffsetX, posOffsetY)`; the sheet's size stands for the
        global fire texture. The fireball starts `posOffsetX` past the right edge, drawn at
        2.5 times the size of one frame of the sheet. */
    constructor (velocity: int, posOffsetX: int, posOffsetY: int, sheetWidth: int, sheetHeight: int)
      ensures this.velocity == velocity && !colliding && collidingDuration == 0.0
      ensures srcRect == Rect(0.0, 0.0, sheetWidth as real / FireFrames as real, sheetHeight as real)
      ensures initialPosX == (ScreenWidth + posOffsetX) as real
      ensures initialPosY == ScreenHeight as real - (40 + posOffsetY) as real * 2.5
      ensures destRect == Rect(initialPosX, initialPosY, srcRect.width * 2.5, srcRect.height * 2.5)
    {
      this.velocity := velocity;
      colliding := false;
      collidingDuration := 0.0;
      srcRect := Rect(0.0, 0.0, sheetWidth as real / FireFrames as real, sheetHeight as real);
      initialPosX := (ScreenWidth + posOffsetX) as real;
      initialPosY := ScreenHeight as real - (40 + posOffsetY) as real * 2.5;
      new;
      destRect := Rect(initialPosX, initialPosY, srcRect.width * 2.5, srcRect.height * 2.5);
    }

    /** `update(dT)`; `elapsed` is the global game time. */
    method Update(dT: real, elapsed: real)
      modifies this
      ensures Value() == FireballNext(old(Value()), dT, elapsed)
    {
      if colliding {
        collidingDuration := collidingDuration + dT;
      } else {
        collidingDuration := 0.0;
      }
      destRect := destRect.(x := destRect.x + velocity as real * dT);
      if destRect.x < -destRect.width {
        destRect := destRect.(x := initialPosX);
      }
      if collidingDuration > ContactLimit {
        destRect := destRect.(x := initialPosX);
      }
      srcRect := srcRect.(x := Offset(srcRect.width, StripFrame(elapsed, 1.0 / 12.0, FireFrames)));
    }

    /** Lines 329-357 for this fireball while the hero is alive: whether it starts touching
        the hero's hit box, then recording the contact and updating. */
    method TakeTurn(box: Rect, dT: real, elapsed: real) returns (hit: bool)
      modifies this
      ensures hit == Hit(old(Value()), box)
      ensures Value() == Contact(old(Value()), box, dT, elapsed)
    {
      hit := false;
      if IsColliding(destRect, box) {
        if !colliding {
          hit := true;
        }
        colliding := true;
      } else {
        colliding := false;
      }
      Update(dT, elapsed);
    }
  }

  // ---------------------------------------------------------------------------------------
  // The hero

  /** Acceleration due to gravity, in pixels per second squared. */
  const Gravity: int := 3400
  const HeroScale: real := 2.5
  /** The upward speed a jump adds: -400 times the hero's scale, kept as an int. */
  const JumpingVelocity: int := -1000
  const HeroX: real := 120.0
  const RunSprites: int := 7
  const DeadSprites: int := 6
  const JumpSprites: int := 6
  const HitDamage: real := 50.0

  /** The size of one frame of the hero's walk sheet; everything else about the hero's size
      and where the ground is follows from it. */
  datatype HeroSizes = HeroSizes(spriteWidth: real, spriteHeight: real)

  function HeroWidth(s: HeroSizes): real { s.spriteWidth * HeroScale }
  function HeroHeight(s: HeroSizes): real { s.spriteHeight * HeroScale }

  /** The hero stands 40 pixels above the bottom of the screen. */
  function GroundPos(s: HeroSizes): real {
    ScreenHeight as real - s.spriteHeight * HeroScale - 40.0
  }

  /** The part of the hero that fireballs can hit, given its top edge. */
  function HitBox(s: HeroSizes, y: real): Rect {
    Rect(HeroX + 50.0, y, HeroWidth(s) / 5.0, HeroHeight(s) / 2.0)
  }

  /** What the game loop keeps about the hero from one frame to the next: the top of the
      drawn sprite, the vertical speed, the sprite's offset in its sheet, the width of the
      health bar, whether the hero is dead, and the top of the hit box. */
  datatype Hero = Hero(posY: real, velocityY: real, spriteX: real, health: real, dead: bool, hitBoxY: real)

  /** The hero before the first frame: on the ground, at rest, full health bar. The hit box
      starts below the sprite's top by the sprite's width; each frame then puts it halfway
      down the sprite. */
  function InitialHero(s: HeroSizes): (h: Hero)
    ensures h.posY == GroundPos(s) && h.velocityY == 0.0 && !h.dead && h.health == 200.0
  {
    Hero(GroundPos(s), 0.0, 0.0, 200.0, false, GroundPos(s) + HeroWidth(s))
  }

  predicate OnTheGround(h: Hero, s: HeroSizes) {
    h.posY >= GroundPos(s)
  }

  /** The frame of the strip, as an offset in the sheet, at the elapsed time: on the ground
      alive, the run strip at 4 frames a second; on the ground dead, the death strip at 4
      frames a second until its last frame is reached; in the air, the jump strip at 5. */
  function HeroSprite(onTheGround: bool, dead: bool, x: real, width: real, elapsed: real): (r: real)
    ensures onTheGround && dead && x >= Offset(width, DeadSprites - 1) ==> r == x
  {
    if onTheGround then
      if dead then
        if x < Offset(width, DeadSprites - 1) then
          Offset(width, StripFrame(elapsed, 1.0 / 4.0, DeadSprites))
        else
          x
      else
        Offset(width, StripFrame(elapsed, 1.0 / 4.0, RunSprites))
    else
      Offset(width, StripFrame(elapsed, 1.0 / 5.0, JumpSprites))
  }

  /** The hero's motion in one frame: clamped to the ground with no speed when on it,
      accelerated by gravity when in the air, given the jump impulse when on the ground,
      alive and the jump key is down, then moved by its speed. */
  function HeroMotion(h: Hero, s: HeroSizes, dT: real, elapsed: real, jumpDown: bool): (r: Hero)
    ensures r.health == h.health && r.dead == h.dead && r.hitBoxY == h.hitBoxY
  {
    var onTheGround := OnTheGround(h, s);
    var y := if onTheGround then GroundPos(s) else h.posY;
    var fallen := if onTheGround then 0.0 else h.velocityY + Gravity as real * dT;
    var vy := if !h.dead && onTheGround && jumpDown then fallen + JumpingVelocity as real else fallen;
    var x := if !h.dead then 0.0 else h.spriteX;
    h.(posY := y + vy * dT, velocityY := vy, spriteX := HeroSprite(onTheGround, h.dead, x, s.spriteWidth, elapsed))
  }

  /** A hero on the ground that does not jump (or cannot, being dead) stays exactly on the
      ground with no speed. */
  lemma RestingHeroStays(h: Hero, s: HeroSizes, dT: real, elapsed: real, jumpDown: bool)
    requires OnTheGround(h, s) && (h.dead || !jumpDown)
    ensures HeroMotion(h, s, dT, elapsed, jumpDown).posY == GroundPos(s)
    ensures HeroMotion(h, s, dT, elapsed, jumpDown).velocityY == 0.0
  {
  }

  /** In the air, gravity adds `Gravity * dT` to the speed, whatever the keys, and the hero
      moves by the new speed over the frame. */
  lemma AirborneHeroFalls(h: Hero, s: HeroSizes, dT: real, elapsed: real, jumpDown: bool)
    requires !OnTheGround(h, s)
    ensures HeroMotion(h, s, dT, elapsed, jumpDown).velocityY == h.velocityY + Gravity as real * dT
    ensures HeroMotion(h, s, dT, elapsed, jumpDown).posY == h.posY + (h.velocityY + Gravity as real * dT) * dT
  {
  }

  /** The jump key makes a difference exactly when the hero is alive and on the ground, and
      then it launches the hero upward. */
  lemma JumpOnlyFromGround(h: Hero, s: HeroSizes, dT: real, elapsed: real)
    ensures HeroMotion(h, s, dT, elapsed, true).velocityY != HeroMotion(h, s, dT, elapsed, false).velocityY
            <==> OnTheGround(h, s) && !h.dead
    ensures OnTheGround(h, s) && !h.dead && dT > 0.0 ==>
            HeroMotion(h, s, dT, elapsed, true).velocityY == JumpingVelocity as real
            && HeroMotion(h, s, dT, elapsed, true).posY < GroundPos(s)
  {
  }

  /** The sprite offset stays within the sheet: at most the offset of the run strip's last
      frame, provided time has not run backwards and a dead hero's offset was in range. */
  lemma HeroSpriteInSheet(onTheGround: bool, dead: bool, x: real, width: real, elapsed: real)
    requires elapsed >= 0.0 && width >= 0.0
    requires 0.0 <= x <= Offset(width, RunSprites - 1)
    ensures 0.0 <= HeroSprite(onTheGround, dead, x, width, elapsed) <= Offset(width, RunSprites - 1)
  {
    if onTheGround && dead && x < Offset(width, DeadSprites - 1) {
      StripBounds(width, StripFrame(elapsed, 1.0 / 4.0, DeadSprites), RunSprites);
    } else if onTheGround && !dead {
      StripBounds(width, StripFrame(elapsed, 1.0 / 4.0, RunSprites), RunSprites);
    } else if !onTheGround {
      StripBounds(width, StripFrame(elapsed, 1.0 / 5.0, JumpSprites), RunSprites);
    }
  }

  /** A frame of a strip of `n` starts within `[0, Offset(width, n - 1)]`. */
  lemma StripBounds(width: real, frame: int, n: int)
    requires width >= 0.0 && 0 <= frame < n
    ensures 0.0 <= Offset(width, frame) <= Offset(width, n - 1)
  {
    assert Offset(width, n - 1) - Offset(width, frame) == ((n - 1) as real - frame as real) * width;
    assert ((n - 1) as real - frame as real) * width >= 0.0;
  }

  // ---------------------------------------------------------------------------------------
  // Contact with fireballs and death

  /** A fireball hurts the hero when it touches the hit box and was not already touching it:
      damage is done on the rising edge of a contact only. */
  function Hit(f: FireballState, box: Rect): (r: bool)
    ensures r <==> RisingEdges(f.colliding, [IsColliding(f.destRect, box)]) == 1
  {
    IsColliding(f.destRect, box) && !f.colliding
  }

  /** How many of the fireballs hurt the hero this frame. */
  function Hits(fs: seq<FireballState>, box: Rect): (n: nat)
    ensures n <= |fs|
  {
    if fs == [] then 0
    else Hits(fs[..|fs| - 1], box) + if Hit(fs[|fs| - 1], box) then 1 else 0
  }

  /** One fireball's turn in the entity loop while the hero is alive: it records whether it
      touches the hit box, then updates. */
  function Contact(f: FireballState, box: Rect, dT: real, elapsed: real): (r: FireballState)
    ensures r.colliding == IsColliding(f.destRect, box)
  {
    FireballNext(f.(colliding := IsColliding(f.destRect, box)), dT, elapsed)
  }

  /** Once the hero is dead, every fireball is stopped and moved out of sight. */
  function Frozen(f: FireballState): (r: FireballState)
    ensures r.velocity == 0 && r.destRect.y == -80.0
  {
    f.(velocity := 0, destRect := f.destRect.(y := -80.0))
  }

  /** The check at the end of a frame: the hero dies, and its sprite starts over, the first
      time the health bar is used up. */
  function Death(h: Hero): (r: Hero)
    ensures r.dead <==> h.dead || h.health <= 0.0
    ensures r.dead && !h.dead ==> r.spriteX == 0.0
    ensures r == h.(dead := r.dead, spriteX := r.spriteX)
  {
    if h.health <= 0.0 && !h.dead then h.(spriteX := 0.0, dead := true) else h
  }

  /** The hero after a whole frame, given the fireballs as they were when the frame began
      and the game time after `elapsed += dT`. The hit box is where the previous frame left
      it; only afterwards is it moved down to half the sprite's height. */
  function HeroAfterFrame(h: Hero, s: HeroSizes, fs: seq<FireballState>, elapsed: real, dT: real, jumpDown: bool): (r: Hero)
    ensures r.posY == HeroMotion(h, s, dT, elapsed, jumpDown).posY
    ensures r.velocityY == HeroMotion(h, s, dT, elapsed, jumpDown).velocityY
    ensures r.hitBoxY == r.posY + HeroHeight(s) / 2.0
    ensures r.health <= h.health
    ensures r.dead <==> h.dead || r.health <= 0.0
  {
    var m := HeroMotion(h, s, dT, elapsed, jumpDown);
    var health := if h.dead then h.health else h.health - HitDamage * Hits(fs, HitBox(s, h.hitBoxY)) as real;
    Death(m.(health := health, hitBoxY := m.posY + HeroHeight(s) / 2.0))
  }

  /** Each fireball that begins a contact costs one hit, and no more than that. */
  lemma DamagePerFrame(h: Hero, s: HeroSizes, fs: seq<FireballState>, elapsed: real, dT: real, jumpDown: bool)
    requires !h.dead
    ensures h.health - HitDamage * |fs| as real <= HeroAfterFrame(h, s, fs, elapsed, dT, jumpDown).health <= h.health
    ensures (forall i :: 0 <= i < |fs| ==> fs[i].colliding) ==>
            HeroAfterFrame(h, s, fs, elapsed, dT, jumpDown).health == h.health
  {
    var box := HitBox(s, h.hitBoxY);
    if forall i :: 0 <= i < |fs| ==> fs[i].colliding {
      NoHitsWhileTouching(fs, box);
    }
  }

  lemma {:induction false} NoHitsWhileTouching(fs: seq<FireballState>, box: Rect)
    requires forall i :: 0 <= i < |fs| ==> fs[i].colliding
    ensures Hits(fs, box) == 0
  {
    if fs != [] {
      var init := fs[..|fs| - 1];
      assert forall i :: 0 <= i < |init| ==> init[i].colliding by {
        forall i | 0 <= i < |init| ensures init[i].colliding {
          assert init[i] == fs[i];
        }
      }
      NoHitsWhileTouching(init, box);
    }
  }

  /** Once dead, the hero stays dead and takes no more damage. */
  lemma DeathIsFinal(h: Hero, s: HeroSizes, fs: seq<FireballState>, elapsed: real, dT: real, jumpDown: bool)
    requires h.dead
    ensures HeroAfterFrame(h, s, fs, elapsed, dT, jumpDown).dead
    ensures HeroAfterFrame(h, s, fs, elapsed, dT, jumpDown).health == h.health
  {
  }

  /** A living hero dies in exactly the frame that uses up the health bar. */
  lemma DiesWhenHealthGone(h: Hero, s: HeroSizes, fs: seq<FireballState>, elapsed: real, dT: real, jumpDown: bool)
    requires !h.dead
    ensures HeroAfterFrame(h, s, fs, elapsed, dT, jumpDown).dead
            <==> h.health - HitDamage * Hits(fs, HitBox(s, h.hitBoxY)) as real <= 0.0
  {
  }

  /** How often one fireball hurts the hero over a run of frames, given whether it touched
      the hit box in each frame and whether it was touching before the run. */
  function RisingEdges(before: bool, contacts: seq<bool>): nat {
    if contacts == [] then 0
    else
      var earlier := contacts[..|contacts| - 1];
      var previous := if earlier == [] then before else earlier[|earlier| - 1];
      RisingEdges(before, earlier) + if contacts[|contacts| - 1] && !previous then 1 else 0
  }

  /** On sequences of contacts: an unbroken run has one rising edge, or none if the
      fireball was already touching. */
  lemma {:induction false} RisingEdgesOfUnbrokenRun(before: bool, contacts: seq<bool>)
    requires contacts != [] && forall i :: 0 <= i < |contacts| ==> contacts[i]
    ensures RisingEdges(before, contacts) == if before then 0 else 1
  {
    var earlier := contacts[..|contacts| - 1];
    if earlier != [] {
      assert forall i :: 0 <= i < |earlier| ==> earlier[i] by {
        forall i | 0 <= i < |earlier| ensures earlier[i] {
          assert earlier[i] == contacts[i];
        }
      }
      RisingEdgesOfUnbrokenRun(before, earlier);
      assert earlier[|earlier| - 1] == contacts[|earlier| - 1];
    }
  }

  /** One frame as a fireball sees it while the hero is alive: the hero's hit box and the
      frame's timing. */
  datatype Turn = Turn(box: Rect, dT: real, elapsed: real)

  /** The fireball after taking its turns in a run of frames. */
  function After(f: FireballState, turns: seq<Turn>): FireballState {
    if turns == [] then f
    else
      var t := turns[|turns| - 1];
      Contact(After(f, turns[..|turns| - 1]), t.box, t.dT, t.elapsed)
  }

  /** How often the fireball hurts the hero over the run. */
  function HitsOver(f: FireballState, turns: seq<Turn>): nat {
    if turns == [] then 0
    else HitsOver(f, turns[..|turns| - 1]) + if Hit(After(f, turns[..|turns| - 1]), turns[|turns| - 1].box) then 1 else 0
  }

  /** Whether the fireball touches the hit box, frame by frame. */
  function Touches(f: FireballState, turns: seq<Turn>): seq<bool> {
    seq(|turns|, i requires 0 <= i < |turns| => IsColliding(After(f, turns[..i]).destRect, turns[i].box))
  }

  /** Dropping the last frame of a run drops the last contact. */
  lemma TouchesPrefix(f: FireballState, turns: seq<Turn>)
    requires turns != []
    ensures Touches(f, turns)[..|turns| - 1] == Touches(f, turns[..|turns| - 1])
  {
    var init := turns[..|turns| - 1];
    forall i | 0 <= i < |init| ensures Touches(f, turns)[i] == Touches(f, init)[i] {
      assert init[..i] == turns[..i];
    }
  }

  /** Before the last frame of a run, the fireball's flag is its contact in the frame
      before, or its flag as the run began if there is none. */
  lemma FlagBeforeLast(f: FireballState, turns: seq<Turn>)
    requires turns != []
    ensures After(f, turns[..|turns| - 1]).colliding
            == if |turns| == 1 then f.colliding else Touches(f, turns)[|turns| - 2]
  {
    var n := |turns|;
    if n > 1 {
      var init := turns[..n - 1];
      assert init[..n - 2] == turns[..n - 2];
    }
  }

  /** One more frame adds one more edge, counted against the contact before it. */
  lemma RisingEdgesStep(before: bool, c: seq<bool>)
    requires c != []
    ensures RisingEdges(before, c) == RisingEdges(before, c[..|c| - 1])
            + if c[|c| - 1] && !(if |c| == 1 then before else c[|c| - 2]) then 1 else 0
  {
    var earlier := c[..|c| - 1];
    if |c| > 1 {
      assert earlier[|earlier| - 1] == c[|c| - 2];
    }
  }

  /** A hit is a contact against a flag that was not set. */
  lemma HitStep(g: FireballState, box: Rect, previous: bool, now: bool)
    requires g.colliding == previous && now == IsColliding(g.destRect, box)
    ensures Hit(g, box) == (now && !previous)
  {
  }

  /** Over any run, the fireball hurts the hero once per rising edge of its contacts, the
      edge before the first frame counted against its flag as the run began. */
  lemma {:induction false} HitsAreRisingEdges(f: FireballState, turns: seq<Turn>)
    ensures HitsOver(f, turns) == RisingEdges(f.colliding, Touches(f, turns))
  {
    if turns != [] {
      var n := |turns|;
      var c := Touches(f, turns);
      HitsAreRisingEdges(f, turns[..n - 1]);
      TouchesPrefix(f, turns);
      FlagBeforeLast(f, turns);
      RisingEdgesStep(f.colliding, c);
      HitStep(After(f, turns[..n - 1]), turns[n - 1].box, if n == 1 then f.colliding else c[n - 2], c[n - 1]);
    }
  }

  /** An unbroken contact, however many frames it lasts, hurts the hero once, and not at
      all if the fireball was already touching when the run began. */
  lemma UnbrokenContactHitsOnce(f: FireballState, turns: seq<Turn>)
    requires turns != []
    requires forall i :: 0 <= i < |turns| ==> IsColliding(After(f, turns[..i]).destRect, turns[i].box)
    ensures HitsOver(f, turns) == if f.colliding then 0 else 1
  {
    HitsAreRisingEdges(f, turns);
    RisingEdgesOfUnbrokenRun(f.colliding, Touches(f, turns));
  }

  // ---------------------------------------------------------------------------------------
  // One frame of the game loop

  predicate Distinct<T(==)>(s: seq<T>) {
    forall i, j :: 0 <= i < j < |s| ==> s[i] != s[j]
  }

  function States(fs: seq<Fireball>): (r: seq<FireballState>)
    reads fs
    ensures |r| == |fs| && forall j :: 0 <= j < |fs| ==> r[j] == fs[j].Value()
  {
    if fs == [] then [] else States(fs[..|fs| - 1]) + [fs[|fs| - 1].Value()]
  }

  /** Lines 256-320 of the loop body: the hero's motion and sprite for this frame. */
  method MoveHero(hero: Hero, sizes: HeroSizes, dT: real, elapsed: real, spaceDown: bool) returns (moved: Hero)
    ensures moved == HeroMotion(hero, sizes, dT, elapsed, spaceDown)
  {
    var posY, velocityY, spriteX := hero.posY, hero.velocityY, hero.spriteX;
    var groundPos := GroundPos(sizes);

    var onTheGround := posY >= groundPos;
    if onTheGround {
      posY := groundPos;
      velocityY := 0.0;
    } else {
      velocityY := velocityY + Gravity as real * dT;
    }
    if !hero.dead {
      if onTheGround && spaceDown {
        velocityY := velocityY + JumpingVelocity as real;
      }
      spriteX := 0.0;
    }
    var width := sizes.spriteWidth;
    if onTheGround {
      if hero.dead {
        if spriteX < Offset(width, DeadSprites - 1) {
          spriteX := Offset(width, StripFrame(elapsed, 1.0 / 4.0, DeadSprites));
        }
      } else {
        spriteX := Offset(width, StripFrame(elapsed, 1.0 / 4.0, RunSprites));
      }
    } else {
      spriteX := Offset(width, StripFrame(elapsed, 1.0 / 5.0, JumpSprites));
    }
    posY := posY + velocityY * dT;
    moved := hero.(posY := posY, velocityY := velocityY, spriteX := spriteX);
  }

  /** The background layers' turns in the entity loop while the hero is alive. */
  method ScrollBackgrounds(backgrounds: seq<Background>, dT: real)
    requires Distinct(backgrounds)
    modifies backgrounds
    ensures forall j :: 0 <= j < |backgrounds| ==> backgrounds[j].Value() == ScrollLayer(old(backgrounds[j].Value()), dT)
  {
    for i := 0 to |backgrounds|
      invariant forall j :: 0 <= j < i ==> backgrounds[j].Value() == ScrollLayer(old(backgrounds[j].Value()), dT)
      invariant forall j :: i <= j < |backgrounds| ==> backgrounds[j].Value() == old(backgrounds[j].Value())
    {
      backgrounds[i].Update(dT);
    }
  }

  /** The fireballs' turns in the entity loop while the hero is alive: each one that starts
      touching the hit box takes `HitDamage` off the health bar; each records whether it
      touches and updates. */
  method ContactFireballs(fireballs: seq<Fireball>, box: Rect, dT: real, elapsed: real, health: real)
    returns (healthAfter: real)
    requires Distinct(fireballs)
    modifies fireballs
    ensures healthAfter == health - HitDamage * Hits(old(States(fireballs)), box) as real
    ensures forall j :: 0 <= j < |fireballs| ==> fireballs[j].Value() == Contact(old(fireballs[j].Value()), box, dT, elapsed)
  {
    ghost var before := States(fireballs);
    healthAfter := health;
    for i := 0 to |fireballs|
      invariant forall j :: 0 <= j < i ==> fireballs[j].Value() == Contact(before[j], box, dT, elapsed)
      invariant forall j :: i <= j < |fireballs| ==> fireballs[j].Value() == before[j]
      invariant healthAfter == health - HitDamage * Hits(before[..i], box) as real
    {
      assert before[..i + 1][..i] == before[..i];
      var hit := fireballs[i].TakeTurn(box, dT, elapsed);
      if hit {
        healthAfter := healthAfter - HitDamage;
      }
    }
    assert before[..|fireballs|] == before;
  }

  /** The fireballs' turns in the entity loop once the hero is dead. */
  method FreezeFireballs(fireballs: seq<Fireball>)
    requires Distinct(fireballs)
    modifies fireballs
    ensures forall j :: 0 <= j < |fireballs| ==> fireballs[j].Value() == Frozen(old(fireballs[j].Value()))
  {
    for i := 0 to |fireballs|
      invariant forall j :: 0 <= j < i ==> fireballs[j].Value() == Frozen(old(fireballs[j].Value()))
      invariant forall j :: i <= j < |fireballs| ==> fireballs[j].Value() == old(fireballs[j].Value())
    {
      fireballs[i].velocity := 0;
      fireballs[i].destRect := fireballs[i].destRect.(y := -80.0);
    }
  }

  /** Lines 323-366: every entity takes its turn. While the hero is alive the layers scroll
      and the fireballs make contact and update, each new contact taking `HitDamage` off
      the health bar; once the hero is dead the layers stand still and the fireballs
      freeze. */
  method EntityTurns(dead: bool, box: Rect, backgrounds: seq<Background>, fireballs: seq<Fireball>,
                     dT: real, elapsed: real, health: real)
    returns (healthAfter: real)
    requires Distinct(backgrounds) && Distinct(fireballs)
    modifies backgrounds, fireballs
    ensures healthAfter == if dead then health else health - HitDamage * Hits(old(States(fireballs)), box) as real
    ensures forall j :: 0 <= j < |backgrounds| ==>
      backgrounds[j].Value() == if dead then old(backgrounds[j].Value()) else ScrollLayer(old(backgrounds[j].Value()), dT)
    ensures forall j :: 0 <= j < |fireballs| ==>
      fireballs[j].Value() == if dead then Frozen(old(fireballs[j].Value())) else Contact(old(fireballs[j].Value()), box, dT, elapsed)
  {
    healthAfter := health;
    if !dead {
      ghost var before := States(fireballs);
      ScrollBackgrounds(backgrounds, dT);
      assert States(fireballs) == before;
      healthAfter := ContactFireballs(fireballs, box, dT, elapsed, health);
    } else {
      FreezeFireballs(fireballs);
    }
  }

  /** One pass of the game loop: the game time advances, the hero moves, every background
      layer and every fireball takes its turn (contact, then update) unless the hero is
      dead, the hit box follows the hero, and the hero dies if the health bar is used up.
      The entity list of the source holds the layers first and the fireballs after them. */
  method Frame(hero: Hero, sizes: HeroSizes, backgrounds: seq<Background>, fireballs: seq<Fireball>,
               elapsed: real, dT: real, spaceDown: bool)
    returns (next: Hero, elapsedNow: real)
    requires Distinct(backgrounds) && Distinct(fireballs)
    modifies backgrounds, fireballs
    ensures elapsedNow == elapsed + dT
    ensures next == HeroAfterFrame(hero, sizes, old(States(fireballs)), elapsedNow, dT, spaceDown)
    ensures forall j :: 0 <= j < |backgrounds| ==>
      backgrounds[j].Value() == if hero.dead then old(backgrounds[j].Value())
                                else ScrollLayer(old(backgrounds[j].Value()), dT)
    ensures forall j :: 0 <= j < |fireballs| ==>
      fireballs[j].Value() == if hero.dead then Frozen(old(fireballs[j].Value()))
                              else Contact(old(fireballs[j].Value()), HitBox(sizes, hero.hitBoxY), dT, elapsedNow)
  {
    ghost var before := States(fireballs);
    elapsedNow := elapsed + dT;
    var moved := MoveHero(hero, sizes, dT, elapsedNow, spaceDown);
    var box := HitBox(sizes, hero.hitBoxY);
    var health := EntityTurns(hero.dead, box, backgrounds, fireballs, dT, elapsedNow, hero.health);
    assert health == if hero.dead then hero.health else hero.health - HitDamage * Hits(before, box) as real;
    next := CheckDeath(moved.(health := health, hitBoxY := moved.posY + HeroHeight(sizes) / 2.0));
  }

  /** Lines 391-402: the hero dies, and its sprite starts over, the first time the health
      bar is used up. */
  method CheckDeath(hero: Hero) returns (next: Hero)
    ensures next == Death(hero)
  {
    next := hero;
    if hero.health <= 0.0 {
      if !hero.dead {
        next := next.(spriteX := 0.0);
        next := next.(dead := true);
      }
    }
  }
}
