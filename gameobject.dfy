/** The shooter-platformer's entity records (04-shooter-platformer/src/gameobject.h): the
    closed sets of per-kind states, the per-kind payloads, and the one record every object
    in the game is, with the default values its constructor gives. */
module GameObjects {
  import opened Geometry
  import opened Timers
  import opened Animations

  datatype PlayerState = Idle | Walking | Running | Jumping
  datatype BulletState = Moving | Colliding | Inactive
  datatype EnemyState = Idle | Walking | Damaged | Dead
  datatype ObjectType = Player | Level | Enemy | Bullet

  /** A player's payload: its state and the cooldown timer of its weapon. */
  datatype PlayerData = PlayerData(state: PlayerState, weaponTimer: TimerState)

  datatype LevelData = LevelData

  datatype EnemyData = EnemyData(state: EnemyState, damagedTimer: TimerState, health: int)

  datatype BulletData = BulletData(state: BulletState)

  /** Every object carries all four payloads; `kind` says which one is meant. */
  datatype ObjectData = ObjectData(player: PlayerData, enemy: EnemyData, level: LevelData, bullet: BulletData)

  /** The texture pointer: null, or a handle owned by the renderer. */
  datatype Texture = NoTexture | TextureHandle(id: nat)

  /** `GameObject`. The C++ field `type` is named `kind` here, `type` being a keyword. */
  datatype GameObject = GameObject(
    kind: ObjectType,
    data: ObjectData,
    position: Vec2,
    velocity: Vec2,
    acceleration: Vec2,
    direction: real,      // 1 faces right, -1 left
    maxSpeedX: real,
    animations: seq<AnimationState>,
    currentAnimation: int, // -1 when no animation is selected
    texture: Texture,
    dynamic: bool,         // whether gravity applies
    collider: Rect,        // in the object's own frame
    grounded: bool,
    flashTimer: TimerState,
    shouldFlash: bool,
    animationFrame: int)

  /** The cooldown between two shots. */
  const WeaponCooldown: real := 0.8
  /** How long an enemy stays damaged. */
  const DamagedTime: real := 0.5
  const EnemyHealth: int := 20
  /** The length of a hit flash. */
  const FlashTime: real := 0.05

  /** `PlayerData()`. `unset` is what the weapon timer's uninitialised flag holds. */
  function DefaultPlayerData(unset: bool): (p: PlayerData)
    ensures p.state == PlayerState.Idle
    ensures p.weaponTimer.duration == WeaponCooldown && p.weaponTimer.time == 0.0
  {
    PlayerData(PlayerState.Idle, NewTimer(WeaponCooldown, unset))
  }

  /** `EnemyData()`. */
  function DefaultEnemyData(unset: bool): (e: EnemyData)
    ensures e.state == EnemyState.Idle && e.health == EnemyHealth
    ensures e.damagedTimer.duration == DamagedTime && e.damagedTimer.time == 0.0
  {
    EnemyData(EnemyState.Idle, NewTimer(DamagedTime, unset), EnemyHealth)
  }

  /** `BulletData()`. */
  function DefaultBulletData(): (b: BulletData)
    ensures b.state == Moving
  {
    BulletData(Moving)
  }

  /** `ObjectData()`, as the GameObject constructor writes it. That expression
      value-initialises a struct without a constructor of its own, which zeroes every
      member before the members' constructors run, so the payload timers' `timeout` flags
      start out false. */
  function DefaultObjectData(): (d: ObjectData)
    ensures d.player == DefaultPlayerData(false)
    ensures d.enemy == DefaultEnemyData(false)
    ensures d.bullet == DefaultBulletData()
  {
    ObjectData(DefaultPlayerData(false), DefaultEnemyData(false), LevelData, DefaultBulletData())
  }

  /** Either no animation is selected, or the selected one exists. */
  predicate AnimationSelectionValid(o: GameObject) {
    o.currentAnimation == -1 || 0 <= o.currentAnimation < |o.animations|
  }

  /** `GameObject()`: a static level object at the origin facing right, at rest, with no
      animation selected and no texture, not subject to gravity, with an all-zero collider,
      not grounded and not flashing. `flashUnset` is what the flash timer's uninitialised
      flag holds (this timer is built by its own constructor, so nothing zeroes it). */
  function DefaultGameObject(flashUnset: bool): (o: GameObject)
    ensures o.kind == Level && o.data == DefaultObjectData()
    ensures o.direction == 1.0 && o.maxSpeedX == 0.0
    ensures o.position == Zero && o.velocity == Zero && o.acceleration == Zero
    ensures o.animations == [] && o.currentAnimation == -1 && AnimationSelectionValid(o)
    ensures o.texture == NoTexture && !o.dynamic && o.collider == Rect(0.0, 0.0, 0.0, 0.0) && !o.grounded
    ensures o.flashTimer.duration == FlashTime && o.flashTimer.time == 0.0 && !o.shouldFlash
    ensures o.animationFrame == 1
  {
    GameObject(
      kind := Level,
      data := DefaultObjectData(),
      position := Zero,
      velocity := Zero,
      acceleration := Zero,
      direction := 1.0,
      maxSpeedX := 0.0,
      animations := [],
      currentAnimation := -1,
      texture := NoTexture,
      dynamic := false,
      collider := Rect(0.0, 0.0, 0.0, 0.0),
      grounded := false,
      flashTimer := NewTimer(FlashTime, flashUnset),
      shouldFlash := false,
      animationFrame := 1)
  }
}
