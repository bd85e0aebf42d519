/** The entities of the game state (game.h) as values, and the whole game
    state as one record that the rules of the game transform. */
module State {
  import opened Settings

  /** A hazard car: its cell, direction (+1 or -1), speed in cells per tick,
      the ticks it still waits before it moves again, and whether it is one
      of the two cars that stop when the frog is near. */
  datatype Car = Car(x: int, y: int, dir: int, speed: int, delay: int, stopping: bool)

  /** A friendly car, which carries the frog. */
  datatype FriendlyCar = FriendlyCar(x: int, y: int, dir: int, speed: int)

  /** A coin and whether the frog has already picked it up. */
  datatype Coin = Coin(x: int, y: int, collected: bool)

  /** An obstacle: the leftmost of its three cells. */
  datatype Obstacle = Obstacle(x: int, y: int)

  /** Everything the GameState record holds.  The arrays of the record are
      sequences as long as their compiled capacities; `time_t` values are
      whole seconds. */
  datatype World = World(
    frogX: int, frogY: int,
    cars: seq<Car>,
    friendly: seq<FriendlyCar>,
    coins: seq<Coin>,
    obstacles: seq<Obstacle>,
    numObstacles: int,
    level: int, score: int, lives: int,
    startTime: int, lastJumpTime: int,
    frogCarried: bool, carryingCarIndex: int,
    storkX: int, storkY: int,
    frogSteps: int)

  /** The record as `GameState game_state = {0}` creates it. */
  function Blank(): (s: World)
    ensures |s.cars| == MAX_CARS && |s.friendly| == MAX_FRIENDLY_CARS
    ensures |s.coins| == MAX_COINS && |s.obstacles| == MAX_OBSTACLES
    ensures !s.frogCarried && s.numObstacles == 0 && s.level == 0 && s.lives == 0
  {
    World(0, 0,
          seq(MAX_CARS, _ => Car(0, 0, 0, 0, 0, false)),
          seq(MAX_FRIENDLY_CARS, _ => FriendlyCar(0, 0, 0, 0)),
          seq(MAX_COINS, _ => Coin(0, 0, false)),
          seq(MAX_OBSTACLES, _ => Obstacle(0, 0)),
          0, 0, 0, 0, 0, 0, false, 0, 0, 0, 0)
  }

  /** The C conversion `(short int)v`: the 16-bit two's-complement value
      that agrees with v modulo 2^16. */
  function Int16(v: int): (r: int)
    ensures -0x8000 <= r < 0x8000
    ensures (r - v) % 0x10000 == 0
    ensures -0x8000 <= v < 0x8000 ==> r == v
  {
    (v + 0x8000) % 0x10000 - 0x8000
  }

  /** abs() of the C library. */
  function Abs(v: int): (r: nat)
    ensures r == v || r == -v
  {
    if v < 0 then -v else v
  }

  predicate OnScreen(x: int, y: int, c: Config) {
    0 <= x < c.screenWidth && 0 <= y < c.screenHeight
  }

  /** The rows the level generator draws coins and obstacles from: below the
      goal rows, above the two bottom rows. */
  predicate InField(y: int, c: Config) {
    2 <= y <= c.screenHeight - 3
  }

  /** The shape every reachable game state has: a valid configuration, arrays
      of their compiled sizes, an obstacle count that fits its array, and a
      carrying index that names a friendly car whenever the frog is carried. */
  predicate WellFormed(s: World, c: Config) {
    && Valid(c)
    && |s.cars| == MAX_CARS
    && |s.friendly| == MAX_FRIENDLY_CARS
    && |s.coins| == MAX_COINS
    && |s.obstacles| == MAX_OBSTACLES
    && 0 <= s.numObstacles <= MAX_OBSTACLES
    && (s.frogCarried ==> 0 <= s.carryingCarIndex < c.maxFriendlyCars)
  }

  /** Every entity that the model positions is on the screen: the frog, the
      stork once it plays (level 2 on), every car's column, every friendly
      car, coin and obstacle (rows in the field).  Car rows 2 + 2i are fixed
      by their index and are not bounded by the screen height. */
  predicate InBounds(s: World, c: Config)
    requires WellFormed(s, c)
  {
    && OnScreen(s.frogX, s.frogY, c)
    && (s.level >= 2 ==> OnScreen(s.storkX, s.storkY, c))
    && (forall i :: 0 <= i < c.maxCars ==> 0 <= s.cars[i].x < c.screenWidth)
    && (forall i :: 0 <= i < c.maxFriendlyCars ==>
          0 <= s.friendly[i].x < c.screenWidth && InField(s.friendly[i].y, c))
    && (forall i :: 0 <= i < c.maxCoins ==>
          0 <= s.coins[i].x < c.screenWidth && InField(s.coins[i].y, c))
    && (forall i :: 0 <= i < s.numObstacles ==>
          0 <= s.obstacles[i].x < c.screenWidth && InField(s.obstacles[i].y, c))
  }
}
