/** The game state record and the functions of game.c that update it in
    place.  Each per-tick method is proved to end in exactly the state the
    pure rule of module Rules gives; the level set-up methods state the
    layout they produce. */
module Game {
  import opened Settings
  import opened State
  import opened Rng
  import Rules

  /** Car i as restart_game places it: a column on the screen, row 2 + 2i, a
      direction of +1 or -1, a speed in [1, tier] and a spawn delay in
      [1, 10]. */
  predicate CarPlaced(c: Car, i: int, cfg: Config, tier: int) {
    && 0 <= c.x < cfg.screenWidth && c.y == 2 + 2 * i
    && (c.dir == 1 || c.dir == -1)
    && 1 <= c.speed <= tier
    && 1 <= c.delay <= 10
  }

  /** Friendly car i as restart_game places it, on row 2 + (2i mod (h - 4)). */
  predicate FriendlyPlaced(f: FriendlyCar, i: int, cfg: Config)
    requires Valid(cfg)
  {
    && 0 <= f.x < cfg.screenWidth && f.y == 2 + (2 * i) % (cfg.screenHeight - 4)
    && (f.dir == 1 || f.dir == -1)
    && 1 <= f.speed <= cfg.maxSpeedLevel1
  }

  /** The indices below n of the cars marked as stopping. */
  ghost function StoppingSet(cs: seq<Car>, n: int): set<int> {
    set j | 0 <= j < n && j < |cs| && cs[j].stopping
  }

  /** The layout restart_game (game.c:327-364) leaves in the record `s`, as
      a value: the frog at (w/2, h-2) with no steps taken, every car and
      friendly car placed, at most two stopping cars, every coin on the
      screen and uncollected, w*h/200 obstacles on the screen, and from
      level 2 on the stork in its corner.  With `ok` it also has exactly two
      stopping cars, no coin on the row of the coin before it, and no
      obstacle on a car's row. */
  ghost predicate FreshLayout(s: World, cfg: Config, ok: bool) {
    && WellFormed(s, cfg)
    && s.frogX == cfg.screenWidth / 2 && s.frogY == cfg.screenHeight - 2 && s.frogSteps == 0
    && (forall i :: 0 <= i < cfg.maxCars ==> CarPlaced(s.cars[i], i, cfg, SpeedTier(cfg, s.level)))
    && (forall i :: 0 <= i < cfg.maxFriendlyCars ==> FriendlyPlaced(s.friendly[i], i, cfg))
    && |StoppingSet(s.cars, cfg.maxCars)| <= 2
    && (forall i :: 0 <= i < cfg.maxCoins ==>
          0 <= s.coins[i].x < cfg.screenWidth && InField(s.coins[i].y, cfg) && !s.coins[i].collected)
    && s.numObstacles == cfg.screenWidth * cfg.screenHeight / 200
    && (forall i :: 0 <= i < s.numObstacles ==>
          0 <= s.obstacles[i].x < cfg.screenWidth && InField(s.obstacles[i].y, cfg))
    && (s.level >= 2 ==> s.storkX == cfg.screenWidth - 1 && s.storkY == cfg.screenHeight - 2)
    && (ok ==>
          && |StoppingSet(s.cars, cfg.maxCars)| == 2
          && (forall i :: 0 < i < cfg.maxCoins ==> s.coins[i].y != s.coins[i - 1].y)
          && (forall i, j :: 0 <= i < s.numObstacles && 0 <= j < cfg.maxCars ==>
                s.obstacles[i].y != s.cars[j].y))
  }

  /** The layout's promises under `ok` include those without it. */
  lemma FreshLayoutWeaken(s: World, cfg: Config)
    requires FreshLayout(s, cfg, true)
    ensures FreshLayout(s, cfg, false)
  {
  }

  class GameState {
    const cfg: Config

    var frogX: int
    var frogY: int
    const cars: array<Car>
    const friendly: array<FriendlyCar>
    const coins: array<Coin>
    const obstacles: array<Obstacle>
    var numObstacles: int
    var level: int
    var score: int
    var lives: int
    var startTime: int
    var lastJumpTime: int
    var frogCarried: bool
    var carryingCarIndex: int
    var storkX: int
    var storkY: int
    var frogSteps: int

    /** The record's contents as a value. */
    ghost function View(): World
      reads this, cars, friendly, coins, obstacles
    {
      World(frogX, frogY, cars[..], friendly[..], coins[..], obstacles[..], numObstacles,
            level, score, lives, startTime, lastJumpTime, frogCarried, carryingCarIndex,
            storkX, storkY, frogSteps)
    }

    ghost predicate Valid()
      reads this, cars, friendly, coins, obstacles
    {
      WellFormed(View(), cfg)
    }

    /** `GameState game_state = {0}` (main.c:106). */
    constructor (cfg: Config)
      requires Settings.Valid(cfg)
      ensures this.cfg == cfg && Valid() && View() == Blank()
    {
      this.cfg := cfg;
      frogX, frogY := 0, 0;
      cars := new Car[MAX_CARS](_ => Car(0, 0, 0, 0, 0, false));
      friendly := new FriendlyCar[MAX_FRIENDLY_CARS](_ => FriendlyCar(0, 0, 0, 0));
      coins := new Coin[MAX_COINS](_ => Coin(0, 0, false));
      obstacles := new Obstacle[MAX_OBSTACLES](_ => Obstacle(0, 0));
      numObstacles := 0;
      level, score, lives := 0, 0, 0;
      startTime, lastJumpTime := 0, 0;
      frogCarried, carryingCarIndex := false, 0;
      storkX, storkY := 0, 0;
      frogSteps := 0;
      new;
      assert cars[..] == Blank().cars;
      assert friendly[..] == Blank().friendly;
      assert coins[..] == Blank().coins;
      assert obstacles[..] == Blank().obstacles;
    }

    // -------------------------------------------------------------------
    // move_frog (game.c:156-187)
    // -------------------------------------------------------------------

    method MoveFrog(dx: int, dy: int, now: int)
      requires Valid()
      modifies this
      ensures Valid()
      ensures View() == Rules.MoveFrog(old(View()), cfg, dx, dy, now)
    {
      if now - lastJumpTime >= 1 {
        JumpFrog(dx, dy);
        lastJumpTime := now;
        frogSteps := frogSteps + 1;
        MoveStork();
      }
    }

    /** The carry release or the bounded jump, game.c:160-168. */
    method JumpFrog(dx: int, dy: int)
      requires Valid()
      modifies this
      ensures Valid()
      ensures View() == Rules.Jump(old(View()), cfg, dx, dy)
    {
      if frogCarried {
        frogCarried := false;
        carryingCarIndex := -1;
      } else {
        if frogX + dx >= 0 && frogX + dx < cfg.screenWidth {
          frogX := frogX + dx;
        }
        if frogY + dy >= 0 && frogY + dy < cfg.screenHeight {
          frogY := frogY + dy;
        }
      }
    }

    /** The stork's step after a jump, game.c:173-185. */
    method MoveStork()
      requires Valid()
      modifies this
      ensures Valid()
      ensures View() == Rules.ChaseStork(old(View()))
    {
      if level == 2 && frogSteps % 2 == 0 {
        var storkDx := if frogX > storkX then 1 else if frogX < storkX then -1 else 0;
        var storkDy := if frogY > storkY then 1 else if frogY < storkY then -1 else 0;
        storkX := storkX + storkDx;
        storkY := storkY + storkDy;
      } else if level >= 3 && frogSteps % 1 == 0 {
        var storkDx := if frogX > storkX then 1 else if frogX < storkX then -1 else 0;
        var storkDy := if frogY > storkY then 1 else if frogY < storkY then -1 else 0;
        storkX := storkX + Int16(storkDx);
        storkY := storkY + Int16(storkDy);
      }
    }

    // -------------------------------------------------------------------
    // update_game (game.c:190-243)
    // -------------------------------------------------------------------

    /** The friendly-car loop and the carry, game.c:191-210. */
    method MoveFriendlyCars()
      requires Valid()
      modifies this, friendly
      ensures Valid()
      ensures var s := old(View());
        var fs := Rules.MoveFriendlies(s.friendly, cfg.maxFriendlyCars, cfg.screenWidth);
        var k := Rules.LastCarrier(fs[..cfg.maxFriendlyCars], s.frogX, s.frogY);
        var carried := s.frogCarried || k >= 0;
        var index := if k >= 0 then k else s.carryingCarIndex;
        View() == s.(friendly := fs, frogCarried := carried, carryingCarIndex := index,
                    frogX := if carried then fs[index].x else s.frogX,
                    frogY := if carried then fs[index].y else s.frogY)
    {
      MoveFriendlyLoop();
      if frogCarried {
        frogX := friendly[carryingCarIndex].x;
        frogY := friendly[carryingCarIndex].y;
      }
    }

    /** The loop of game.c:191-205 without the snap that follows it: every
        car is moved, and the frog is taken by the last car on its cell. */
    method MoveFriendlyLoop()
      requires Valid()
      modifies this`frogCarried, this`carryingCarIndex, friendly
      ensures Valid()
      ensures var s := old(View());
        var fs := Rules.MoveFriendlies(s.friendly, cfg.maxFriendlyCars, cfg.screenWidth);
        var k := Rules.LastCarrier(fs[..cfg.maxFriendlyCars], s.frogX, s.frogY);
        && friendly[..] == fs
        && frogCarried == (s.frogCarried || k >= 0)
        && carryingCarIndex == (if k >= 0 then k else s.carryingCarIndex)
    {
      ScreenFitsShort(cfg);
      ghost var s := View();
      var w := cfg.screenWidth;
      var i := 0;
      while i < cfg.maxFriendlyCars
        invariant 0 <= i <= cfg.maxFriendlyCars
        invariant friendly[..] == Rules.MoveFriendlies(s.friendly, i, w)
        invariant var k := Rules.LastCarrier(friendly[..i], s.frogX, s.frogY);
          && frogCarried == (s.frogCarried || k >= 0)
          && carryingCarIndex == (if k >= 0 then k else s.carryingCarIndex)
      {
        ghost var done := friendly[..i];
        Rules.MoveFriendliesStep(s.friendly, i, w);
        MoveFriendlyCar(i);
        assert friendly[..i + 1][..i] == done;
        i := i + 1;
      }
      assert friendly[..i] == friendly[..][..cfg.maxFriendlyCars];
    }

    /** One pass of the friendly-car loop body, game.c:192-204: car i moves
      and bounces, and takes the frog when it lands on the frog's cell. */
    method MoveFriendlyCar(i: int)
      requires Settings.Valid(cfg) && friendly.Length == MAX_FRIENDLY_CARS
      requires 0 <= i < cfg.maxFriendlyCars
      modifies this`frogCarried, this`carryingCarIndex, friendly
      ensures friendly[..] == old(friendly[..])[i := Rules.MoveFriendly(old(friendly[i]), cfg.screenWidth)]
      ensures Rules.OnFrog(friendly[i], frogX, frogY) ==> frogCarried && carryingCarIndex == i
      ensures !Rules.OnFrog(friendly[i], frogX, frogY) ==>
        frogCarried == old(frogCarried) && carryingCarIndex == old(carryingCarIndex)
    {
      ScreenFitsShort(cfg);
      var w := cfg.screenWidth;
      var f := friendly[i];
      var x := f.x + Int16(f.dir * f.speed);
      var dir := f.dir;
      if x >= w {
        dir := -1;
        x := Int16(w - 1);
      } else if x < 0 {
        dir := 1;
        x := 0;
      }
      friendly[i] := f.(x := x, dir := dir);
      if frogX == friendly[i].x && frogY == friendly[i].y {
        frogCarried := true;
        carryingCarIndex := i;
      }
    }

    /** One pass of the hazard-car loop body, game.c:213-241. */
    method MoveHazardCar(i: int, rnd: Rand)
      requires Valid() && 0 <= i < cfg.maxCars
      modifies cars, rnd
      ensures Valid()
      ensures (cars[i], rnd.pos)
           == Rules.HazardStep(old(cars[i]), i, frogX, frogY, cfg, rnd.stream, old(rnd.pos))
      ensures forall j :: 0 <= j < MAX_CARS && j != i ==> cars[j] == old(cars[j])
    {
      ScreenFitsShort(cfg);
      var w := cfg.screenWidth;
      var c := cars[i];
      if c.delay > 0 {
        cars[i] := c.(delay := c.delay - 1);
      } else if c.stopping && Abs(frogX - c.x) + Abs(frogY - c.y) <= cfg.proximityThreshold {
        cars[i] := c.(speed := 0);
      } else {
        var speed := c.speed;
        if i % 2 == 0 {
          var roll := rnd.Next();
          if roll % 10 < 1 {
            var draw := rnd.Next();
            speed := Int16(draw % cfg.maxSpeedLevel3 + 1);
          }
        }
        var x := c.x + Int16(c.dir * speed);
        var dir, delay := c.dir, c.delay;
        if i < 5 {
          if x >= w {
            dir := -1;
            x := Int16(w - 1);
          } else if x < 0 {
            dir := 1;
            x := 0;
          }
        } else {
          if x >= w {
            x := 0;
            var draw := rnd.Next();
            delay := draw % 10 + 1;
          } else if x < 0 {
            x := Int16(w - 1);
            var draw := rnd.Next();
            delay := draw % 10 + 1;
          }
        }
        cars[i] := Car(x, c.y, dir, speed, delay, c.stopping);
      }
    }

    /** The hazard-car loop, game.c:212-242. */
    method MoveHazardCars(rnd: Rand)
      requires Valid()
      modifies cars, rnd
      ensures Valid()
      ensures (cars[..], rnd.pos)
           == Rules.HazardsStep(old(cars[..]), cfg.maxCars, frogX, frogY, cfg, rnd.stream, old(rnd.pos))
    {
      ghost var cs := cars[..];
      ghost var pos := rnd.pos;
      var i := 0;
      while i < cfg.maxCars
        invariant 0 <= i <= cfg.maxCars
        invariant Valid()
        invariant (cars[..], rnd.pos) == Rules.HazardsStep(cs, i, frogX, frogY, cfg, rnd.stream, pos)
      {
        ghost var before := cars[..];
        MoveHazardCar(i, rnd);
        assert cars[..] == before[i := cars[i]];
        i := i + 1;
      }
    }

    method UpdateGame(rnd: Rand)
      requires Valid()
      modifies this, friendly, cars, rnd
      ensures Valid()
      ensures (View(), rnd.pos) == Rules.UpdateGame(old(View()), cfg, rnd.stream, old(rnd.pos))
    {
      MoveFriendlyCars();
      MoveHazardCars(rnd);
    }

    // -------------------------------------------------------------------
    // check_collision (game.c:246-274): a read-only scan
    // -------------------------------------------------------------------

    method CheckCollision() returns (hit: bool)
      requires Valid()
      ensures hit == Rules.Collides(View(), cfg)
    {
      if frogCarried {
        return false;
      }
      var i := 0;
      while i < cfg.maxCars
        invariant 0 <= i <= cfg.maxCars
        invariant forall k :: 0 <= k < i ==> !Rules.CarHits(cars[k], frogX, frogY)
      {
        var hitbox := cars[i].speed;
        var j := -hitbox;
        while j <= hitbox
          invariant -hitbox <= j
          invariant frogY == cars[i].y ==> !(-hitbox <= frogX - cars[i].x < j)
        {
          if frogX == cars[i].x + j && frogY == cars[i].y {
            assert Rules.CarHits(View().cars[i], frogX, frogY);
            return true;
          }
          j := j + 1;
        }
        i := i + 1;
      }
      i := 0;
      while i < numObstacles
        invariant 0 <= i <= numObstacles
        invariant forall k :: 0 <= k < i ==> !Rules.ObstacleHits(obstacles[k], frogX, frogY)
      {
        var j := 0;
        while j < 3
          invariant 0 <= j <= 3
          invariant frogY == obstacles[i].y ==> !(0 <= frogX - obstacles[i].x < j)
        {
          if frogX == obstacles[i].x + j && frogY == obstacles[i].y {
            assert Rules.ObstacleHits(View().obstacles[i], frogX, frogY);
            return true;
          }
          j := j + 1;
        }
        i := i + 1;
      }
      if level >= 2 {
        if frogX == storkX && frogY == storkY {
          return true;
        }
      }
      return false;
    }

    // -------------------------------------------------------------------
    // check_coin_collection (game.c:277-284)
    // -------------------------------------------------------------------

    method CheckCoinCollection()
      requires Valid()
      modifies this`score, coins
      ensures Valid()
      ensures View() == Rules.CollectCoins(old(View()), cfg)
    {
      ghost var s := View();
      var i := 0;
      while i < cfg.maxCoins
        invariant 0 <= i <= cfg.maxCoins
        invariant coins[..] == Rules.Collect(s.coins, i, frogX, frogY)
        invariant score == s.score + Rules.Pickups(s.coins[..i], frogX, frogY)
      {
        assert s.coins[..i + 1][..i] == s.coins[..i];
        if frogX == coins[i].x && frogY == coins[i].y && !coins[i].collected {
          score := score + 1;
          coins[i] := coins[i].(collected := true);
        }
        i := i + 1;
      }
    }

    // -------------------------------------------------------------------
    // generate_coins (game.c:287-299)
    // -------------------------------------------------------------------

    /** Each redraw loop runs at most `budget` times; `ok` says that every one
        of them stopped because the coin's row differed from the one checked.
        It is false only when some redraw loop used all its `budget` draws. */
    method GenerateCoins(rnd: Rand, budget: nat) returns (ok: bool)
      requires Settings.Valid(cfg) && coins.Length == MAX_COINS
      modifies coins, rnd
      ensures CoinsPlaced(ok)
      ensures forall i :: cfg.maxCoins <= i < MAX_COINS ==> coins[i] == old(coins[i])
      ensures rnd.pos >= old(rnd.pos) + 2 * cfg.maxCoins
      ensures !ok ==> rnd.pos >= old(rnd.pos) + 2 * cfg.maxCoins + budget
    {
      ok := true;
      var i := 0;
      while i < cfg.maxCoins
        invariant 0 <= i <= cfg.maxCoins
        invariant rnd.pos >= old(rnd.pos) + 2 * i
        invariant !ok ==> rnd.pos >= old(rnd.pos) + 2 * i + budget
        invariant forall k :: 0 <= k < i ==>
          0 <= coins[k].x < cfg.screenWidth && InField(coins[k].y, cfg) && !coins[k].collected
        invariant forall k :: i <= k < MAX_COINS ==> coins[k] == old(coins[k])
        invariant ok ==> forall k :: 0 < k < i ==> coins[k].y != coins[k - 1].y
      {
        var placed := PlaceCoin(i, rnd, budget);
        ok := ok && placed;
        i := i + 1;
      }
    }

    /** Coin i of generate_coins, game.c:290-297: a random cell, then for
        every earlier coin j in turn the row is redrawn (at most `budget`
        times) while it equals coin j's row.  Only the last comparison, with
        coin i - 1, is sure to hold at the end; `ok` says every redraw loop
        ended by its own condition, and it is false only when one of them
        used all its `budget` draws. */
    method PlaceCoin(i: int, rnd: Rand, budget: nat) returns (ok: bool)
      requires Settings.Valid(cfg) && coins.Length == MAX_COINS && 0 <= i < MAX_COINS
      modifies coins, rnd
      ensures 0 <= coins[i].x < cfg.screenWidth && InField(coins[i].y, cfg) && !coins[i].collected
      ensures forall k :: 0 <= k < MAX_COINS && k != i ==> coins[k] == old(coins[k])
      ensures ok && i > 0 ==> coins[i].y != coins[i - 1].y
      ensures rnd.pos >= old(rnd.pos) + 2
      ensures !ok ==> rnd.pos >= old(rnd.pos) + 2 + budget
    {
      var rx := rnd.Next();
      var ry := rnd.Next();
      coins[i] := Coin(rx % cfg.screenWidth, ry % (cfg.screenHeight - 4) + 2, false);
      ok := true;
      var j := 0;
      while j < i
        invariant 0 <= j <= i
        invariant 0 <= coins[i].x < cfg.screenWidth && InField(coins[i].y, cfg) && !coins[i].collected
        invariant forall k :: 0 <= k < MAX_COINS && k != i ==> coins[k] == old(coins[k])
        invariant ok && j > 0 ==> coins[i].y != coins[j - 1].y
        invariant rnd.pos >= old(rnd.pos) + 2
        invariant !ok ==> rnd.pos >= old(rnd.pos) + 2 + budget
      {
        var apart := SeparateCoin(i, j, rnd, budget);
        ok := ok && apart;
        j := j + 1;
      }
    }

    /** The redraw loop of generate_coins, game.c:294-296: coin i's row is
        redrawn while it equals coin j's, at most `budget` times.  The rows
        still agree only when all `budget` draws were spent. */
    method SeparateCoin(i: int, j: int, rnd: Rand, budget: nat) returns (apart: bool)
      requires Settings.Valid(cfg) && coins.Length == MAX_COINS
      requires 0 <= j < MAX_COINS && 0 <= i < MAX_COINS && i != j
      requires InField(coins[i].y, cfg)
      modifies coins, rnd
      ensures coins[i] == old(coins[i]).(y := coins[i].y) && InField(coins[i].y, cfg)
      ensures forall k :: 0 <= k < MAX_COINS && k != i ==> coins[k] == old(coins[k])
      ensures apart <==> coins[i].y != coins[j].y
      ensures old(rnd.pos) <= rnd.pos <= old(rnd.pos) + budget
      ensures !apart ==> rnd.pos == old(rnd.pos) + budget
    {
      var tries := 0;
      while coins[i].y == coins[j].y && tries < budget
        invariant 0 <= tries <= budget && rnd.pos == old(rnd.pos) + tries
        invariant coins[i] == old(coins[i]).(y := coins[i].y) && InField(coins[i].y, cfg)
        invariant forall k :: 0 <= k < MAX_COINS && k != i ==> coins[k] == old(coins[k])
        decreases budget - tries
      {
        var r := rnd.Next();
        coins[i] := coins[i].(y := r % (cfg.screenHeight - 4) + 2);
        tries := tries + 1;
      }
      apart := coins[i].y != coins[j].y;
    }

    // -------------------------------------------------------------------
    // generate_obstacles (game.c:302-324)
    // -------------------------------------------------------------------

    /** One placement attempt for obstacle i: a random cell, valid when its
        row is no car's row (game.c:311-320). */
    method PlaceObstacle(i: int, rnd: Rand) returns (valid: bool)
      requires Settings.Valid(cfg) && cars.Length == MAX_CARS
      requires obstacles.Length == MAX_OBSTACLES && 0 <= i < MAX_OBSTACLES
      modifies obstacles, rnd
      ensures 0 <= obstacles[i].x < cfg.screenWidth && InField(obstacles[i].y, cfg)
      ensures valid <==> forall j :: 0 <= j < cfg.maxCars ==> obstacles[i].y != cars[j].y
      ensures forall k :: 0 <= k < MAX_OBSTACLES && k != i ==> obstacles[k] == old(obstacles[k])
      ensures rnd.pos == old(rnd.pos) + 2
    {
      valid := true;
      var rx := rnd.Next();
      var ry := rnd.Next();
      obstacles[i] := Obstacle(rx % cfg.screenWidth, ry % (cfg.screenHeight - 4) + 2);
      var j := 0;
      while j < cfg.maxCars
        invariant 0 <= j <= cfg.maxCars
        invariant forall k :: 0 <= k < j ==> obstacles[i].y != cars[k].y
      {
        if obstacles[i].y == cars[j].y {
          valid := false;
          break;
        }
        j := j + 1;
      }
    }

    /** The obstacles as generate_obstacles leaves them: w*h/200 of them,
        each on the screen in the field, and with `ok` none on a car's row. */
    ghost predicate ObstaclesPlaced(ok: bool)
      requires Settings.Valid(cfg) && cars.Length == MAX_CARS && obstacles.Length == MAX_OBSTACLES
      reads this`numObstacles, cars, obstacles
    {
      && numObstacles == cfg.screenWidth * cfg.screenHeight / 200
      && (forall i :: 0 <= i < numObstacles ==>
            0 <= obstacles[i].x < cfg.screenWidth && InField(obstacles[i].y, cfg))
      && (ok ==> forall i, j :: 0 <= i < numObstacles && 0 <= j < cfg.maxCars ==>
            obstacles[i].y != cars[j].y)
    }

    /** After the first attempt each obstacle is redrawn at most `budget`
        times; `ok` says exactly that every obstacle found a row free of
        cars, and it is false only when some obstacle used all its `budget`
        extra attempts of two draws each. */
    method GenerateObstacles(rnd: Rand, budget: nat) returns (ok: bool)
      requires Settings.Valid(cfg) && cars.Length == MAX_CARS && obstacles.Length == MAX_OBSTACLES
      modifies this`numObstacles, obstacles, rnd
      ensures ObstaclesPlaced(ok) && 0 <= numObstacles <= MAX_OBSTACLES
      ensures forall i :: numObstacles <= i < MAX_OBSTACLES ==> obstacles[i] == old(obstacles[i])
      ensures ok <==> forall i, j :: 0 <= i < numObstacles && 0 <= j < cfg.maxCars ==>
        obstacles[i].y != cars[j].y
      ensures rnd.pos >= old(rnd.pos) + 2 * numObstacles
      ensures !ok ==> rnd.pos >= old(rnd.pos) + 2 * numObstacles + 2 * budget
    {
      var n := cfg.screenWidth * cfg.screenHeight / 200;
      numObstacles := n;
      ok := true;
      var i := 0;
      while i < n
        invariant 0 <= i <= n && numObstacles == n
        invariant forall k :: 0 <= k < i ==>
          0 <= obstacles[k].x < cfg.screenWidth && InField(obstacles[k].y, cfg)
        invariant forall k :: i <= k < MAX_OBSTACLES ==> obstacles[k] == old(obstacles[k])
        invariant ok <==> forall k, j :: 0 <= k < i && 0 <= j < cfg.maxCars ==>
          obstacles[k].y != cars[j].y
        invariant rnd.pos >= old(rnd.pos) + 2 * i
        invariant !ok ==> rnd.pos >= old(rnd.pos) + 2 * i + 2 * budget
      {
        ghost var before := obstacles[..];
        ghost var start := rnd.pos;
        var valid := PlaceObstacle(i, rnd);
        var tries := 0;
        while !valid && tries < budget
          invariant numObstacles == n
          invariant 0 <= obstacles[i].x < cfg.screenWidth && InField(obstacles[i].y, cfg)
          invariant valid <==> forall j :: 0 <= j < cfg.maxCars ==> obstacles[i].y != cars[j].y
          invariant forall k :: 0 <= k < MAX_OBSTACLES && k != i ==> obstacles[k] == before[k]
          invariant 0 <= tries <= budget && rnd.pos == start + 2 + 2 * tries
          decreases budget - tries
        {
          valid := PlaceObstacle(i, rnd);
          tries := tries + 1;
        }
        if !valid {
          ok := false;
        }
        i := i + 1;
      }
    }

    // -------------------------------------------------------------------
    // restart_game and next_level (game.c:327-374)
    // -------------------------------------------------------------------

    /** The first max_cars cars as restart_game places them for the current
        level. */
    ghost predicate CarsPlaced()
      requires Settings.Valid(cfg) && cars.Length == MAX_CARS
      reads this`level, cars
    {
      forall i :: 0 <= i < cfg.maxCars ==> CarPlaced(cars[i], i, cfg, SpeedTier(cfg, level))
    }

    ghost predicate FriendliesPlaced()
      requires Settings.Valid(cfg) && friendly.Length == MAX_FRIENDLY_CARS
      reads friendly
    {
      forall i :: 0 <= i < cfg.maxFriendlyCars ==> FriendlyPlaced(friendly[i], i, cfg)
    }

    /** At most two stopping cars, and with `ok` exactly two. */
    ghost predicate StoppingPicked(ok: bool)
      requires cars.Length == MAX_CARS
      reads cars
    {
      && |StoppingSet(cars[..], cfg.maxCars)| <= 2
      && (ok ==> |StoppingSet(cars[..], cfg.maxCars)| == 2)
    }

    /** The coins as generate_coins leaves them; with `ok` no coin shares the
        row of the coin before it. */
    ghost predicate CoinsPlaced(ok: bool)
      requires Settings.Valid(cfg) && coins.Length == MAX_COINS
      reads coins
    {
      && (forall i :: 0 <= i < cfg.maxCoins ==>
            0 <= coins[i].x < cfg.screenWidth && InField(coins[i].y, cfg) && !coins[i].collected)
      && (ok ==> forall i :: 0 < i < cfg.maxCoins ==> coins[i].y != coins[i - 1].y)
    }

    /** The layout restart_game leaves behind at the current level.  With
        `ok` (every redraw loop ended by its own condition) it also has
        exactly two stopping cars, no coin on the row of the coin before it,
        and no obstacle on a car's row. */
    ghost predicate FreshLevel(ok: bool)
      requires Valid()
      reads this, cars, friendly, coins, obstacles
    {
      && frogX == cfg.screenWidth / 2 && frogY == cfg.screenHeight - 2
      && CarsPlaced() && FriendliesPlaced() && StoppingPicked(ok)
      && CoinsPlaced(ok) && ObstaclesPlaced(ok)
      && (level >= 2 ==> storkX == cfg.screenWidth - 1 && storkY == cfg.screenHeight - 2)
      && frogSteps == 0
    }

    /** A fresh layout has every entity on the screen. */
    lemma FreshLevelInBounds(ok: bool)
      requires Valid() && FreshLevel(ok)
      ensures InBounds(View(), cfg)
    {
      forall i | 0 <= i < cfg.maxFriendlyCars
        ensures InField(friendly[i].y, cfg)
      {
        assert FriendlyPlaced(friendly[i], i, cfg);
      }
    }

    /** The record's fresh layout, read as a value. */
    lemma FreshLevelView(ok: bool)
      requires Valid() && FreshLevel(ok)
      ensures FreshLayout(View(), cfg, ok)
    {
      assert View().cars == cars[..];
    }

    /** The car loop of restart_game, game.c:331-338. */
    method PlaceCars(rnd: Rand)
      requires Settings.Valid(cfg) && cars.Length == MAX_CARS
      modifies cars, rnd
      ensures CarsPlaced()
      ensures forall i :: 0 <= i < cfg.maxCars ==> cars[i].stopping == old(cars[i].stopping)
      ensures forall i :: cfg.maxCars <= i < MAX_CARS ==> cars[i] == old(cars[i])
      ensures rnd.pos == old(rnd.pos) + 4 * cfg.maxCars
    {
      var tier := SpeedTier(cfg, level);
      var i := 0;
      while i < cfg.maxCars
        invariant 0 <= i <= cfg.maxCars
        invariant forall k :: 0 <= k < i ==>
          CarPlaced(cars[k], k, cfg, tier) && cars[k].stopping == old(cars[k].stopping)
        invariant forall k :: i <= k < MAX_CARS ==> cars[k] == old(cars[k])
        invariant rnd.pos == old(rnd.pos) + 4 * i
      {
        var rx := rnd.Next();
        var rd := rnd.Next();
        var dir := if rd % 2 == 0 then 1 else -1;
        var rs := rnd.Next();
        var rdl := rnd.Next();
        cars[i] := cars[i].(x := rx % cfg.screenWidth, y := 2 + i * 2, dir := Int16(dir),
                            speed := Int16(rs % tier + 1), delay := rdl % 10 + 1);
        i := i + 1;
      }
    }

    /** The friendly-car loop of restart_game, game.c:339-344. */
    method PlaceFriendlyCars(rnd: Rand)
      requires Settings.Valid(cfg) && friendly.Length == MAX_FRIENDLY_CARS
      modifies friendly, rnd
      ensures FriendliesPlaced()
      ensures forall i :: cfg.maxFriendlyCars <= i < MAX_FRIENDLY_CARS ==> friendly[i] == old(friendly[i])
      ensures rnd.pos == old(rnd.pos) + 3 * cfg.maxFriendlyCars
    {
      var i := 0;
      while i < cfg.maxFriendlyCars
        invariant 0 <= i <= cfg.maxFriendlyCars
        invariant forall k :: 0 <= k < i ==> FriendlyPlaced(friendly[k], k, cfg)
        invariant forall k :: i <= k < MAX_FRIENDLY_CARS ==> friendly[k] == old(friendly[k])
        invariant rnd.pos == old(rnd.pos) + 3 * i
      {
        var rx := rnd.Next();
        var rd := rnd.Next();
        var dir := if rd % 2 == 0 then 1 else -1;
        var rs := rnd.Next();
        friendly[i] := FriendlyCar(rx % cfg.screenWidth, 2 + (i * 2) % (cfg.screenHeight - 4),
                                   Int16(dir), Int16(rs % cfg.maxSpeedLevel1 + 1));
        i := i + 1;
      }
    }

    /** The stopping-car choice of restart_game, game.c:345-355: clear the
        flags of the first max_cars cars, then mark random cars until two
        distinct ones are marked, drawing at most `budget` times.  Nothing
        but the flags changes. */
    method PickStoppingCars(rnd: Rand, budget: nat) returns (ok: bool)
      requires Settings.Valid(cfg) && cars.Length == MAX_CARS
      modifies cars, rnd
      ensures forall i :: 0 <= i < MAX_CARS ==>
        cars[i] == old(cars[i]).(stopping := cars[i].stopping)
      ensures forall i :: cfg.maxCars <= i < MAX_CARS ==> cars[i] == old(cars[i])
      ensures StoppingPicked(ok)
      ensures ok <==> |StoppingSet(cars[..], cfg.maxCars)| == 2
      ensures old(rnd.pos) <= rnd.pos <= old(rnd.pos) + budget
      ensures !ok ==> rnd.pos == old(rnd.pos) + budget
    {
      ClearStopping();
      assert StoppingSet(cars[..], cfg.maxCars) == {};
      var count := 0;
      var tries := 0;
      while count < 2 && tries < budget
        invariant count == |StoppingSet(cars[..], cfg.maxCars)| && count <= 2
        invariant 0 <= tries <= budget && rnd.pos == old(rnd.pos) + tries
        invariant forall k :: 0 <= k < MAX_CARS ==>
          cars[k] == old(cars[k]).(stopping := cars[k].stopping)
        invariant forall k :: cfg.maxCars <= k < MAX_CARS ==> cars[k] == old(cars[k])
        decreases budget - tries
      {
        var r := rnd.Next();
        var index := r % cfg.maxCars;
        if !cars[index].stopping {
          ghost var marked := StoppingSet(cars[..], cfg.maxCars);
          cars[index] := cars[index].(stopping := true);
          assert StoppingSet(cars[..], cfg.maxCars) == marked + {index};
          count := count + 1;
        }
        tries := tries + 1;
      }
      ok := count == 2;
    }

    /** The first loop of the stopping-car choice, game.c:345-347: no car
        among the first `maxCars` stops, and nothing else changes. */
    method ClearStopping()
      requires Settings.Valid(cfg) && cars.Length == MAX_CARS
      modifies cars
      ensures forall i :: 0 <= i < MAX_CARS ==>
        cars[i] == old(cars[i]).(stopping := cars[i].stopping)
      ensures forall i :: 0 <= i < cfg.maxCars ==> !cars[i].stopping
      ensures forall i :: cfg.maxCars <= i < MAX_CARS ==> cars[i] == old(cars[i])
    {
      var i := 0;
      while i < cfg.maxCars
        invariant 0 <= i <= cfg.maxCars
        invariant forall k :: 0 <= k < MAX_CARS ==>
          cars[k] == old(cars[k]).(stopping := cars[k].stopping)
        invariant forall k :: 0 <= k < i ==> !cars[k].stopping
        invariant forall k :: i <= k < MAX_CARS ==> cars[k] == old(cars[k])
      {
        cars[i] := cars[i].(stopping := false);
        i := i + 1;
      }
    }

    /** restart_game: a new layout for the current level.  Score, lives,
        level, the clock fields and the carry are left as they are. */
    method RestartGame(rnd: Rand, budget: nat) returns (ok: bool)
      requires Valid()
      modifies this`frogX, this`frogY, this`numObstacles, this`storkX, this`storkY, this`frogSteps
      modifies cars, friendly, coins, obstacles, rnd
      ensures Valid() && FreshLevel(ok) && InBounds(View(), cfg) && FreshLayout(View(), cfg, ok)
      ensures rnd.pos >= old(rnd.pos) && (!ok ==> rnd.pos >= old(rnd.pos) + budget)
      ensures level == old(level) && score == old(score) && lives == old(lives)
      ensures startTime == old(startTime) && lastJumpTime == old(lastJumpTime)
      ensures frogCarried == old(frogCarried) && carryingCarIndex == old(carryingCarIndex)
      ensures level < 2 ==> storkX == old(storkX) && storkY == old(storkY)
      ensures forall i :: cfg.maxCars <= i < MAX_CARS ==> cars[i] == old(cars[i])
      ensures forall i :: cfg.maxFriendlyCars <= i < MAX_FRIENDLY_CARS ==> friendly[i] == old(friendly[i])
      ensures forall i :: cfg.maxCoins <= i < MAX_COINS ==> coins[i] == old(coins[i])
      ensures forall i :: numObstacles <= i < MAX_OBSTACLES ==> obstacles[i] == old(obstacles[i])
    {
      ok := Relayout(rnd, budget);
      FreshLevelInBounds(ok);
      FreshLevelView(ok);
    }

    /** The statements of restart_game, game.c:328-363, in order: the frog,
        the vehicles, coins and obstacles, then the stork and the step
        count. */
    method Relayout(rnd: Rand, budget: nat) returns (ok: bool)
      requires Valid()
      modifies this`frogX, this`frogY, this`numObstacles, this`storkX, this`storkY, this`frogSteps
      modifies cars, friendly, coins, obstacles, rnd
      ensures Valid() && FreshLevel(ok)
      ensures rnd.pos >= old(rnd.pos) && (!ok ==> rnd.pos >= old(rnd.pos) + budget)
      ensures level < 2 ==> storkX == old(storkX) && storkY == old(storkY)
      ensures forall i :: cfg.maxCars <= i < MAX_CARS ==> cars[i] == old(cars[i])
      ensures forall i :: cfg.maxFriendlyCars <= i < MAX_FRIENDLY_CARS ==> friendly[i] == old(friendly[i])
      ensures forall i :: cfg.maxCoins <= i < MAX_COINS ==> coins[i] == old(coins[i])
      ensures forall i :: numObstacles <= i < MAX_OBSTACLES ==> obstacles[i] == old(obstacles[i])
    {
      ScreenFitsShort(cfg);
      frogX := cfg.screenWidth / 2;
      frogY := cfg.screenHeight - 2;
      ok := PlaceLayout(rnd, budget);
      ResetStork();
    }

    /** The end of restart_game, game.c:359-363: from level 2 on the stork
        returns to its corner, and the frog's step count starts again. */
    method ResetStork()
      requires Settings.Valid(cfg)
      modifies this`storkX, this`storkY, this`frogSteps
      ensures level >= 2 ==> storkX == cfg.screenWidth - 1 && storkY == cfg.screenHeight - 2
      ensures level < 2 ==> storkX == old(storkX) && storkY == old(storkY)
      ensures frogSteps == 0
    {
      ScreenFitsShort(cfg);
      if level >= 2 {
        storkX := Int16(cfg.screenWidth - 1);
        storkY := Int16(cfg.screenHeight - 2);
      }
      frogSteps := 0;
    }

    /** The vehicles, then the coins and obstacles, of restart_game,
        game.c:331-357; `ok` is false only when some redraw loop spent all
        its `budget` attempts. */
    method PlaceLayout(rnd: Rand, budget: nat) returns (ok: bool)
      requires Settings.Valid(cfg) && cars.Length == MAX_CARS && friendly.Length == MAX_FRIENDLY_CARS
      requires coins.Length == MAX_COINS && obstacles.Length == MAX_OBSTACLES
      modifies this`numObstacles, cars, friendly, coins, obstacles, rnd
      ensures CarsPlaced() && FriendliesPlaced() && StoppingPicked(ok)
      ensures CoinsPlaced(ok) && ObstaclesPlaced(ok) && 0 <= numObstacles <= MAX_OBSTACLES
      ensures rnd.pos >= old(rnd.pos) && (!ok ==> rnd.pos >= old(rnd.pos) + budget)
      ensures forall i :: cfg.maxCars <= i < MAX_CARS ==> cars[i] == old(cars[i])
      ensures forall i :: cfg.maxFriendlyCars <= i < MAX_FRIENDLY_CARS ==> friendly[i] == old(friendly[i])
      ensures forall i :: cfg.maxCoins <= i < MAX_COINS ==> coins[i] == old(coins[i])
      ensures forall i :: numObstacles <= i < MAX_OBSTACLES ==> obstacles[i] == old(obstacles[i])
    {
      var vehiclesOk := PlaceVehicles(rnd, budget);
      var itemsOk := PlaceItems(rnd, budget);
      ok := vehiclesOk && itemsOk;
    }

    /** The cars, the friendly cars and the stopping cars of restart_game,
        game.c:331-355.  `ok` says exactly that two distinct cars stop; it is
        false only when the stopping-car loop spent all `budget` draws. */
    method PlaceVehicles(rnd: Rand, budget: nat) returns (ok: bool)
      requires Settings.Valid(cfg) && cars.Length == MAX_CARS && friendly.Length == MAX_FRIENDLY_CARS
      modifies cars, friendly, rnd
      ensures CarsPlaced() && FriendliesPlaced() && StoppingPicked(ok)
      ensures ok <==> |StoppingSet(cars[..], cfg.maxCars)| == 2
      ensures rnd.pos >= old(rnd.pos) + 4 * cfg.maxCars + 3 * cfg.maxFriendlyCars
      ensures !ok ==> rnd.pos == old(rnd.pos) + 4 * cfg.maxCars + 3 * cfg.maxFriendlyCars + budget
      ensures forall i :: cfg.maxCars <= i < MAX_CARS ==> cars[i] == old(cars[i])
      ensures forall i :: cfg.maxFriendlyCars <= i < MAX_FRIENDLY_CARS ==> friendly[i] == old(friendly[i])
    {
      PlaceCars(rnd);
      PlaceFriendlyCars(rnd);
      ok := PickStoppingCars(rnd, budget);
    }

    /** The coins and obstacles of restart_game, game.c:356-357.  `ok` is
        false only when some redraw loop spent all its `budget` attempts. */
    method PlaceItems(rnd: Rand, budget: nat) returns (ok: bool)
      requires Settings.Valid(cfg) && cars.Length == MAX_CARS
      requires coins.Length == MAX_COINS && obstacles.Length == MAX_OBSTACLES
      modifies this`numObstacles, coins, obstacles, rnd
      ensures CoinsPlaced(ok) && ObstaclesPlaced(ok) && 0 <= numObstacles <= MAX_OBSTACLES
      ensures rnd.pos >= old(rnd.pos) && (!ok ==> rnd.pos >= old(rnd.pos) + budget)
      ensures forall i :: cfg.maxCoins <= i < MAX_COINS ==> coins[i] == old(coins[i])
      ensures forall i :: numObstacles <= i < MAX_OBSTACLES ==> obstacles[i] == old(obstacles[i])
    {
      var coinsOk := GenerateCoins(rnd, budget);
      var obstaclesOk := GenerateObstacles(rnd, budget);
      ok := coinsOk && obstaclesOk;
    }

    /** next_level: below level 3 the level rises and a new layout is made;
        at level 3 the run ends by setting lives to 0, and nothing else
        changes. */
    method NextLevel(rnd: Rand, budget: nat) returns (ok: bool)
      requires Valid()
      modifies this, cars, friendly, coins, obstacles, rnd
      ensures Valid()
      ensures old(level) < 3 ==>
        && level == old(level) + 1 && FreshLevel(ok) && InBounds(View(), cfg)
        && FreshLayout(View(), cfg, ok) && score == old(score) && lives == old(lives)
        && startTime == old(startTime) && lastJumpTime == old(lastJumpTime)
        && frogCarried == old(frogCarried) && carryingCarIndex == old(carryingCarIndex)
        && rnd.pos >= old(rnd.pos) && (!ok ==> rnd.pos >= old(rnd.pos) + budget)
      ensures old(level) >= 3 ==> ok && View() == old(View()).(lives := 0) && rnd.pos == old(rnd.pos)
    {
      if level < 3 {
        level := level + 1;
        ok := RestartGame(rnd, budget);
      } else {
        lives := 0;
        ok := true;
      }
    }
  }
}
