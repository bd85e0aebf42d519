/** The compiled capacities of the game state and the run-time tunables that
    the simulation reads (config.h).  Shapes, colours, the frog and car sizes
    and the quit timeout only matter to the renderer and are not modelled. */
module Settings {

  /** Capacities of the fixed-size arrays in the game state. */
  const MAX_CARS: nat := 9
  const MAX_FRIENDLY_CARS: nat := 2
  const MAX_COINS: nat := 5
  const MAX_OBSTACLES: nat := 20

  /** The tunables of one run.  The screen size is the size the terminal had
      when the game was initialised. */
  datatype Config = Config(
    screenWidth: int,
    screenHeight: int,
    maxCars: int,
    maxFriendlyCars: int,
    maxCoins: int,
    proximityThreshold: int,
    maxSpeedLevel1: int,
    maxSpeedLevel2: int,
    maxSpeedLevel3: int)

  /** What the simulation silently relies on and never checks: the counts fit
      the compiled capacities, the obstacle count w*h/200 fits its array, at
      least two cars exist (two of them are made "stopping"), the field has
      rows between the goal and the bottom rows, and every speed tier is a
      positive value that survives the source's (short int) casts. */
  predicate Valid(c: Config) {
    && 1 <= c.screenWidth
    && 4 < c.screenHeight
    && c.screenWidth * c.screenHeight / 200 <= MAX_OBSTACLES
    && 2 <= c.maxCars <= MAX_CARS
    && 0 <= c.maxFriendlyCars <= MAX_FRIENDLY_CARS
    && 0 <= c.maxCoins <= MAX_COINS
    && 1 <= c.maxSpeedLevel1 < 0x8000
    && 1 <= c.maxSpeedLevel2 < 0x8000
    && 1 <= c.maxSpeedLevel3 < 0x8000
  }

  /** The upper speed bound for cars generated at a level: tier 1 at level
      1, tier 2 at level 2 and tier 3 at every other level. */
  function SpeedTier(c: Config, level: int): (t: int)
    ensures Valid(c) ==> 1 <= t < 0x8000
    ensures level == 1 ==> t == c.maxSpeedLevel1
    ensures level == 2 ==> t == c.maxSpeedLevel2
    ensures level != 1 && level != 2 ==> t == c.maxSpeedLevel3
  {
    if level == 1 then c.maxSpeedLevel1
    else if level == 2 then c.maxSpeedLevel2
    else c.maxSpeedLevel3
  }

  /** A valid screen is small: the obstacle bound alone keeps both sides far
      inside the range of a short, so the source's (short int) casts of
      screen coordinates never change them. */
  lemma ScreenFitsShort(c: Config)
    requires Valid(c)
    ensures c.screenWidth < 840 && c.screenHeight < 4200
  {
    var w, h := c.screenWidth, c.screenHeight;
    assert w * h < 4200;
    assert w * h >= w * 5;
    assert w * h >= h;
  }
}
