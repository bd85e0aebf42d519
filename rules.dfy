/** The rules of one tick of the game (game.c and main.c), stated as functions
    on the whole game state, and what the game promises about them.  The
    class in module Game carries them out in place; its methods are proved to
    end in exactly the state these functions give. */
module Rules {
  import opened Settings
  import opened State
  import opened Rng

  // ---------------------------------------------------------------------
  // move_frog (game.c:156-187)
  // ---------------------------------------------------------------------

  /** The jump cooldown: a whole second since the last jump. */
  predicate CooldownOver(s: World, now: int) {
    now - s.lastJumpTime >= 1
  }

  /** One stork step on one axis: one cell toward the target, or none when
      already level with it. */
  function Approach(from: int, target: int): (r: int)
    ensures Abs(target - r) == if from == target then 0 else Abs(target - from) - 1
    ensures from <= target ==> from <= r <= target
    ensures target <= from ==> target <= r <= from
  {
    if target > from then from + 1
    else if target < from then from - 1
    else from
  }

  /** The stork moves on every other jump at level 2 (even step counts) and on
      every jump from level 3 on. */
  predicate StorkMoves(level: int, steps: int) {
    (level == 2 && steps % 2 == 0) || level >= 3
  }

  /** The jump itself: a carried frog spends it leaving the friendly car;
      otherwise each axis takes its delta only when that keeps it on the
      screen. */
  function Jump(s: World, c: Config, dx: int, dy: int): (r: World)
    ensures r == s.(frogX := r.frogX, frogY := r.frogY,
                    frogCarried := r.frogCarried, carryingCarIndex := r.carryingCarIndex)
    ensures !r.frogCarried
    ensures s.frogCarried ==> r.frogX == s.frogX && r.frogY == s.frogY
  {
    if s.frogCarried then s.(frogCarried := false, carryingCarIndex := -1)
    else s.(frogX := if 0 <= s.frogX + dx < c.screenWidth then s.frogX + dx else s.frogX,
            frogY := if 0 <= s.frogY + dy < c.screenHeight then s.frogY + dy else s.frogY)
  }

  /** The stork's answer to a jump, toward the frog's new cell. */
  function ChaseStork(s: World): (r: World)
    ensures r == s.(storkX := r.storkX, storkY := r.storkY)
  {
    if StorkMoves(s.level, s.frogSteps) then
      s.(storkX := Approach(s.storkX, s.frogX), storkY := Approach(s.storkY, s.frogY))
    else s
  }

  /** A jump attempt by (dx, dy) at time `now`. */
  function MoveFrog(s: World, c: Config, dx: int, dy: int, now: int): (r: World)
    ensures r == s.(frogX := r.frogX, frogY := r.frogY,
                    frogCarried := r.frogCarried, carryingCarIndex := r.carryingCarIndex,
                    lastJumpTime := r.lastJumpTime, frogSteps := r.frogSteps,
                    storkX := r.storkX, storkY := r.storkY)
    ensures r.frogCarried ==> r == s
  {
    if !CooldownOver(s, now) then s
    else ChaseStork(Jump(s, c, dx, dy).(lastJumpTime := now, frogSteps := s.frogSteps + 1))
  }

  /** Within the cooldown nothing changes.  Once it is over the jump time is
      `now` and the step count rises by one, also when the jump is spent
      leaving a friendly car, which keeps the frog where it is. */
  lemma MoveFrogCooldown(s: World, c: Config, dx: int, dy: int, now: int)
    ensures var r := MoveFrog(s, c, dx, dy, now);
      && (!CooldownOver(s, now) ==> r == s)
      && (CooldownOver(s, now) ==>
            && r.lastJumpTime == now && r.frogSteps == s.frogSteps + 1
            && (s.frogCarried ==>
                  !r.frogCarried && r.carryingCarIndex == -1
                  && r.frogX == s.frogX && r.frogY == s.frogY))
  {
  }

  /** Each axis is checked on its own: a delta is taken exactly when it keeps
      that coordinate on the screen, so a frog on the screen stays there. */
  lemma MoveFrogAxes(s: World, c: Config, dx: int, dy: int, now: int)
    requires CooldownOver(s, now) && !s.frogCarried
    ensures var r := MoveFrog(s, c, dx, dy, now);
      && r.frogX == (if 0 <= s.frogX + dx < c.screenWidth then s.frogX + dx else s.frogX)
      && r.frogY == (if 0 <= s.frogY + dy < c.screenHeight then s.frogY + dy else s.frogY)
      && (OnScreen(s.frogX, s.frogY, c) ==> OnScreen(r.frogX, r.frogY, c))
  {
  }

  /** The stork moves exactly when the level and the new step count say so,
      one cell per axis toward the frog's new cell, and never overshoots: its
      distance to the frog on each axis never grows and shrinks by one when it
      moves on an axis where it is not level with the frog. */
  lemma StorkChase(s: World, c: Config, dx: int, dy: int, now: int)
    requires CooldownOver(s, now)
    ensures var r := MoveFrog(s, c, dx, dy, now);
      && Abs(r.frogX - r.storkX) <= Abs(r.frogX - s.storkX)
      && Abs(r.frogY - r.storkY) <= Abs(r.frogY - s.storkY)
      && (StorkMoves(s.level, s.frogSteps + 1) ==>
            && (r.storkX != s.storkX || s.storkX == r.frogX)
            && (r.storkY != s.storkY || s.storkY == r.frogY)
            && Abs(r.storkX - s.storkX) <= 1 && Abs(r.storkY - s.storkY) <= 1)
      && (!StorkMoves(s.level, s.frogSteps + 1) ==> r.storkX == s.storkX && r.storkY == s.storkY)
  {
  }

  /** A jump changes only the frog, the carry, the jump time, the step count
      and the stork, and keeps a well-formed state on the screen. */
  lemma MoveFrogKeepsInBounds(s: World, c: Config, dx: int, dy: int, now: int)
    requires WellFormed(s, c) && InBounds(s, c)
    ensures var r := MoveFrog(s, c, dx, dy, now);
      && WellFormed(r, c) && InBounds(r, c)
      && r.cars == s.cars && r.friendly == s.friendly && r.coins == s.coins
      && r.obstacles == s.obstacles && r.numObstacles == s.numObstacles
      && r.level == s.level && r.score == s.score && r.lives == s.lives
      && r.startTime == s.startTime
  {
    var r := MoveFrog(s, c, dx, dy, now);
    if CooldownOver(s, now) && s.level >= 2 {
      assert OnScreen(r.frogX, r.frogY, c);
    }
  }

  // ---------------------------------------------------------------------
  // update_game, friendly cars and carrying (game.c:191-210)
  // ---------------------------------------------------------------------

  /** A move of `step` cells along a row of width w that reverses at the
      screen edges: a step off the right edge ends on the last column heading
      left, one off the left edge ends on column 0 heading right, and any
      other step is taken unchanged.  `(short int)(w - 1)` is the source's
      conversion; it is the identity on a valid screen. */
  function Bounce(x: int, dir: int, step: int, w: int): (r: (int, int))
    requires 1 <= w < 0x8000
    ensures 0 <= r.0 < w
    ensures 0 <= x + step < w ==> r == (x + step, dir)
    ensures x + step >= w ==> r == (w - 1, -1)
    ensures x + step < 0 ==> r == (0, 1)
  {
    if x + step >= w then (Int16(w - 1), -1)
    else if x + step < 0 then (0, 1)
    else (x + step, dir)
  }

  /** A friendly car's move: direction times speed, through the short cast,
      then the bounce.  Its row and speed never change. */
  function MoveFriendly(f: FriendlyCar, w: int): (r: FriendlyCar)
    requires 1 <= w < 0x8000
    ensures 0 <= r.x < w && r.y == f.y && r.speed == f.speed
    ensures r.dir == f.dir || (r.x == w - 1 && r.dir == -1) || (r.x == 0 && r.dir == 1)
  {
    var (x, dir) := Bounce(f.x, f.dir, Int16(f.dir * f.speed), w);
    f.(x := x, dir := dir)
  }

  /** The first n friendly cars moved; the rest of the array untouched. */
  function MoveFriendlies(fs: seq<FriendlyCar>, n: int, w: int): (r: seq<FriendlyCar>)
    requires 1 <= w < 0x8000
    ensures |r| == |fs|
    ensures forall j :: 0 <= j < |fs| ==> r[j].y == fs[j].y && r[j].speed == fs[j].speed
    ensures forall j :: 0 <= j < |fs| && j < n ==> 0 <= r[j].x < w
    ensures forall j :: 0 <= j < |fs| && n <= j ==> r[j] == fs[j]
  {
    seq(|fs|, j requires 0 <= j < |fs| => if j < n then MoveFriendly(fs[j], w) else fs[j])
  }

  /** The loop moves one more car per pass: after pass i, car i is moved
      and every other car is as after pass i - 1. */
  lemma MoveFriendliesStep(fs: seq<FriendlyCar>, i: int, w: int)
    requires 1 <= w < 0x8000 && 0 <= i < |fs|
    ensures MoveFriendlies(fs, i + 1, w) == MoveFriendlies(fs, i, w)[i := MoveFriendly(fs[i], w)]
  {
  }

  predicate OnFrog(f: FriendlyCar, x: int, y: int) {
    f.x == x && f.y == y
  }

  /** The friendly car that ends up carrying a frog at (x, y): the loop over
      the cars overwrites the carrying index at every match, so the LAST car
      on the frog's cell wins; -1 when no car is on it. */
  function LastCarrier(fs: seq<FriendlyCar>, x: int, y: int): (k: int)
    ensures -1 <= k < |fs|
    ensures k >= 0 ==> OnFrog(fs[k], x, y)
    ensures k >= 0 ==> forall j :: k < j < |fs| ==> !OnFrog(fs[j], x, y)
    ensures k == -1 <==> forall j :: 0 <= j < |fs| ==> !OnFrog(fs[j], x, y)
  {
    if |fs| == 0 then -1
    else if OnFrog(fs[|fs| - 1], x, y) then |fs| - 1
    else LastCarrier(fs[..|fs| - 1], x, y)
  }

  // ---------------------------------------------------------------------
  // update_game, hazard cars (game.c:212-242)
  // ---------------------------------------------------------------------

  /** The Manhattan-distance test of a stopping car. */
  predicate NearFrog(c: Car, fx: int, fy: int, threshold: int) {
    Abs(fx - c.x) + Abs(fy - c.y) <= threshold
  }

  /** The speed redraw of even-indexed cars: one draw decides (a 1 in 10
      chance), a second one gives the new speed in [1, tier 3].  Odd indices
      draw nothing. */
  function Redraw(speed: int, i: int, cfg: Config, rng: Stream, pos: nat): (r: (int, nat))
    requires Valid(cfg)
    ensures r.0 == speed || (i % 2 == 0 && 1 <= r.0 <= cfg.maxSpeedLevel3)
    ensures i % 2 != 0 ==> r == (speed, pos)
    ensures pos <= r.1 <= pos + 2
  {
    if i % 2 == 0 then
      if rng(pos) % 10 < 1 then (Int16(rng(pos + 1) % cfg.maxSpeedLevel3 + 1), pos + 2)
      else (speed, pos + 1)
    else (speed, pos)
  }

  /** What the source allows one tick to do to hazard car i, whatever rand()
      returns: a waiting car only counts its delay down; a stopping car near
      the frog (the frog's cell after carrying) gets speed 0 stored and does
      not move; any other car may get a new speed (even indices only, in
      [1, tier 3]), moves by direction times speed, and then either bounces at
      the edges (indices below 5) or, when it leaves the screen, reappears at
      the opposite edge with a new delay in [1, 10] (indices 5 and up).  Its
      row and its stopping flag never change. */
  ghost predicate LegalHazardStep(c: Car, d: Car, i: int, fx: int, fy: int, cfg: Config) {
    var w := cfg.screenWidth;
    && d.y == c.y && d.stopping == c.stopping
    && if c.delay > 0 then d == c.(delay := c.delay - 1)
       else if c.stopping && NearFrog(c, fx, fy, cfg.proximityThreshold) then d == c.(speed := 0)
       else
         var x := c.x + Int16(c.dir * d.speed);
         && (d.speed == c.speed || (i % 2 == 0 && 1 <= d.speed <= cfg.maxSpeedLevel3))
         && 0 <= d.x < w
         && if i < 5 then
              && d.delay == c.delay
              && if x >= w then d.x == w - 1 && d.dir == -1
                 else if x < 0 then d.x == 0 && d.dir == 1
                 else d.x == x && d.dir == c.dir
            else
              && d.dir == c.dir
              && if x >= w then d.x == 0 && 1 <= d.delay <= 10
                 else if x < 0 then d.x == w - 1 && 1 <= d.delay <= 10
                 else d.x == x && d.delay == c.delay
  }

  /** One hazard car's tick, drawing from the stream at `pos`; also returns
      the position after its draws. */
  function HazardStep(c: Car, i: int, fx: int, fy: int, cfg: Config, rng: Stream, pos: nat): (r: (Car, nat))
    requires Valid(cfg)
    ensures LegalHazardStep(c, r.0, i, fx, fy, cfg)
    ensures pos <= r.1 <= pos + 3
  {
    ScreenFitsShort(cfg);
    var w := cfg.screenWidth;
    if c.delay > 0 then (c.(delay := c.delay - 1), pos)
    else if c.stopping && NearFrog(c, fx, fy, cfg.proximityThreshold) then (c.(speed := 0), pos)
    else
      var (speed, p) := Redraw(c.speed, i, cfg, rng, pos);
      var step := Int16(c.dir * speed);
      if i < 5 then
        var (x, dir) := Bounce(c.x, c.dir, step, w);
        (c.(x := x, dir := dir, speed := speed), p)
      else if c.x + step >= w then
        (c.(x := 0, speed := speed, delay := rng(p) % 10 + 1), p + 1)
      else if c.x + step < 0 then
        (c.(x := Int16(w - 1), speed := speed, delay := rng(p) % 10 + 1), p + 1)
      else
        (c.(x := c.x + step, speed := speed), p)
  }

  /** The first k hazard cars after their ticks, in index order, and the
      stream position after their draws. */
  function HazardsStep(cs: seq<Car>, k: nat, fx: int, fy: int, cfg: Config, rng: Stream, pos: nat): (r: (seq<Car>, nat))
    requires Valid(cfg) && k <= |cs|
    ensures |r.0| == |cs| && r.1 >= pos
    decreases k
  {
    if k == 0 then (cs, pos)
    else
      var (prev, p) := HazardsStep(cs, k - 1, fx, fy, cfg, rng, pos);
      var (car, q) := HazardStep(prev[k - 1], k - 1, fx, fy, cfg, rng, p);
      (prev[k - 1 := car], q)
  }

  /** Every one of the first k cars took a legal step, whatever the stream
      holds, and the cars from k on are untouched. */
  lemma {:induction false} HazardsStepLegal(cs: seq<Car>, k: nat, fx: int, fy: int, cfg: Config, rng: Stream, pos: nat)
    requires Valid(cfg) && k <= |cs|
    ensures var r := HazardsStep(cs, k, fx, fy, cfg, rng, pos).0;
      && (forall j :: 0 <= j < k ==> LegalHazardStep(cs[j], r[j], j, fx, fy, cfg))
      && (forall j :: k <= j < |cs| ==> r[j] == cs[j])
  {
    if k > 0 {
      HazardsStepLegal(cs, k - 1, fx, fy, cfg, rng, pos);
    }
  }

  /** A frozen odd-indexed car stays frozen: the speed 0 written for a nearby
      stopping car is stored, and odd indices never redraw, so once such a car
      is still it keeps its column and speed 0 on every later tick. */
  lemma FrozenOddCarStaysStill(c: Car, i: int, fx: int, fy: int, cfg: Config, rng: Stream, pos: nat)
    requires Valid(cfg) && i % 2 == 1 && c.speed == 0 && c.delay <= 0
    requires 0 <= c.x < cfg.screenWidth
    ensures var d := HazardStep(c, i, fx, fy, cfg, rng, pos).0;
      d.speed == 0 && d.x == c.x && d.delay == c.delay
  {
  }

  // ---------------------------------------------------------------------
  // update_game as a whole (game.c:190-243)
  // ---------------------------------------------------------------------

  /** update_game: friendly cars move and pick up the frog, a carried frog is
      put on its carrier, then the hazard cars take their ticks against the
      frog's new cell.  Also returns the stream position after the draws. */
  function UpdateGame(s: World, cfg: Config, rng: Stream, pos: nat): (r: (World, nat))
    requires WellFormed(s, cfg)
    ensures WellFormed(r.0, cfg) && r.1 >= pos
  {
    ScreenFitsShort(cfg);
    var fs := MoveFriendlies(s.friendly, cfg.maxFriendlyCars, cfg.screenWidth);
    var k := LastCarrier(fs[..cfg.maxFriendlyCars], s.frogX, s.frogY);
    var carried := s.frogCarried || k >= 0;
    var index := if k >= 0 then k else s.carryingCarIndex;
    var fx := if carried then fs[index].x else s.frogX;
    var fy := if carried then fs[index].y else s.frogY;
    var (cs, p) := HazardsStep(s.cars, cfg.maxCars, fx, fy, cfg, rng, pos);
    (s.(friendly := fs, frogCarried := carried, carryingCarIndex := index,
        frogX := fx, frogY := fy, cars := cs), p)
  }

  /** What one update promises: every moved friendly car is on the screen on
      its own row, the frog is carried by the last friendly car on its cell
      (or stays carried by the same one), a carried frog sits on its carrier,
      every hazard car took a legal step against the frog's new cell, and
      nothing else changes. */
  lemma UpdateGameFacts(s: World, cfg: Config, rng: Stream, pos: nat)
    requires WellFormed(s, cfg)
    ensures var r := UpdateGame(s, cfg, rng, pos).0;
      var n := cfg.maxFriendlyCars;
      var k := LastCarrier(r.friendly[..n], s.frogX, s.frogY);
      && WellFormed(r, cfg)
      && (forall j :: 0 <= j < n ==>
            r.friendly[j] == MoveFriendly(s.friendly[j], cfg.screenWidth)
            && 0 <= r.friendly[j].x < cfg.screenWidth && r.friendly[j].y == s.friendly[j].y)
      && (forall j :: n <= j < |s.friendly| ==> r.friendly[j] == s.friendly[j])
      && r.frogCarried == (s.frogCarried || k >= 0)
      && r.carryingCarIndex == (if k >= 0 then k else s.carryingCarIndex)
      && (r.frogCarried ==>
            r.frogX == r.friendly[r.carryingCarIndex].x && r.frogY == r.friendly[r.carryingCarIndex].y)
      && (!r.frogCarried ==> r.frogX == s.frogX && r.frogY == s.frogY)
      && (forall j :: 0 <= j < cfg.maxCars ==>
            LegalHazardStep(s.cars[j], r.cars[j], j, r.frogX, r.frogY, cfg))
      && (forall j :: cfg.maxCars <= j < |s.cars| ==> r.cars[j] == s.cars[j])
      && r.coins == s.coins && r.obstacles == s.obstacles && r.numObstacles == s.numObstacles
      && r.level == s.level && r.score == s.score && r.lives == s.lives
      && r.startTime == s.startTime && r.lastJumpTime == s.lastJumpTime
      && r.storkX == s.storkX && r.storkY == s.storkY && r.frogSteps == s.frogSteps
  {
    ScreenFitsShort(cfg);
    var r := UpdateGame(s, cfg, rng, pos).0;
    HazardsStepLegal(s.cars, cfg.maxCars, r.frogX, r.frogY, cfg, rng, pos);
  }

  /** The screen invariant survives an update. */
  lemma UpdateGameKeepsInBounds(s: World, cfg: Config, rng: Stream, pos: nat)
    requires WellFormed(s, cfg) && InBounds(s, cfg)
    ensures WellFormed(UpdateGame(s, cfg, rng, pos).0, cfg)
    ensures InBounds(UpdateGame(s, cfg, rng, pos).0, cfg)
  {
    UpdateGameFacts(s, cfg, rng, pos);
    var r := UpdateGame(s, cfg, rng, pos).0;
    forall j | 0 <= j < cfg.maxCars
      ensures 0 <= r.cars[j].x < cfg.screenWidth
    {
      assert LegalHazardStep(s.cars[j], r.cars[j], j, r.frogX, r.frogY, cfg);
    }
    if r.frogCarried {
      assert InField(r.friendly[r.carryingCarIndex].y, cfg);
    }
  }

  // ---------------------------------------------------------------------
  // check_coin_collection (game.c:277-284)
  // ---------------------------------------------------------------------

  /** A coin the frog at (x, y) picks up now. */
  predicate Pickable(c: Coin, x: int, y: int) {
    c.x == x && c.y == y && !c.collected
  }

  /** The first n coins with those on the frog's cell marked collected. */
  function Collect(cs: seq<Coin>, n: int, x: int, y: int): (r: seq<Coin>)
    ensures |r| == |cs|
    ensures forall j :: 0 <= j < |cs| ==>
      r[j].x == cs[j].x && r[j].y == cs[j].y && (cs[j].collected ==> r[j].collected)
    ensures forall j :: 0 <= j < |cs| && !Pickable(r[j], x, y) ==>
      r[j] == cs[j] || (j < n && Pickable(cs[j], x, y))
    ensures forall j :: 0 <= j < |cs| && j < n ==> !Pickable(r[j], x, y)
  {
    seq(|cs|, j requires 0 <= j < |cs| =>
      if j < n && Pickable(cs[j], x, y) then cs[j].(collected := true) else cs[j])
  }

  /** The number of coins in cs the frog at (x, y) picks up. */
  function Pickups(cs: seq<Coin>, x: int, y: int): (r: nat)
    ensures r <= |cs|
  {
    if |cs| == 0 then 0
    else Pickups(cs[..|cs| - 1], x, y) + (if Pickable(cs[|cs| - 1], x, y) then 1 else 0)
  }

  /** The pickup count is the number of distinct indices of pickable coins. */
  lemma {:induction false} PickupsCountsCoins(cs: seq<Coin>, x: int, y: int)
    ensures Pickups(cs, x, y) == |set j | 0 <= j < |cs| && Pickable(cs[j], x, y)|
  {
    if |cs| > 0 {
      var m := |cs| - 1;
      PickupsCountsCoins(cs[..m], x, y);
      var before := set j | 0 <= j < m && Pickable(cs[..m][j], x, y);
      var all := set j | 0 <= j < |cs| && Pickable(cs[j], x, y);
      if Pickable(cs[m], x, y) {
        assert all == before + {m};
      } else {
        assert all == before;
      }
    }
  }

  /** check_coin_collection on the whole state. */
  function CollectCoins(s: World, cfg: Config): (r: World)
    requires WellFormed(s, cfg)
    ensures WellFormed(r, cfg) && r == s.(coins := r.coins, score := r.score)
    ensures s.score <= r.score <= s.score + cfg.maxCoins
  {
    s.(coins := Collect(s.coins, cfg.maxCoins, s.frogX, s.frogY),
       score := s.score + Pickups(s.coins[..cfg.maxCoins], s.frogX, s.frogY))
  }

  /** The score rises by exactly the number of uncollected coins among the
      first max_coins on the frog's cell; exactly those become collected,
      every other coin is unchanged, and no coin is ever un-collected. */
  lemma CollectCoinsFacts(s: World, cfg: Config)
    requires WellFormed(s, cfg)
    ensures var r := CollectCoins(s, cfg);
      && WellFormed(r, cfg)
      && r.score == s.score + |set j | 0 <= j < cfg.maxCoins && Pickable(s.coins[j], s.frogX, s.frogY)|
      && |r.coins| == |s.coins|
      && (forall j :: 0 <= j < |s.coins| ==>
            && r.coins[j].x == s.coins[j].x && r.coins[j].y == s.coins[j].y
            && (s.coins[j].collected ==> r.coins[j].collected)
            && r.coins[j].collected == (s.coins[j].collected
                                         || (j < cfg.maxCoins && Pickable(s.coins[j], s.frogX, s.frogY))))
      && r == s.(coins := r.coins, score := r.score)
  {
    var n := cfg.maxCoins;
    PickupsCountsCoins(s.coins[..n], s.frogX, s.frogY);
    assert (set j | 0 <= j < n && Pickable(s.coins[..n][j], s.frogX, s.frogY))
        == (set j | 0 <= j < n && Pickable(s.coins[j], s.frogX, s.frogY));
  }

  /** Nothing is left to pick up once the coins on a cell are collected. */
  lemma {:induction false} NoPickupsAfterCollect(cs: seq<Coin>, n: int, x: int, y: int, m: nat)
    requires m <= |cs| && m <= n
    ensures Pickups(Collect(cs, n, x, y)[..m], x, y) == 0
  {
    if m > 0 {
      NoPickupsAfterCollect(cs, n, x, y, m - 1);
      assert Collect(cs, n, x, y)[..m][..m - 1] == Collect(cs, n, x, y)[..m - 1];
    }
  }

  /** Collecting twice is collecting once: a second call on the same tick
      adds nothing to the score and changes no coin. */
  lemma CollectCoinsIdempotent(s: World, cfg: Config)
    requires WellFormed(s, cfg)
    ensures CollectCoins(CollectCoins(s, cfg), cfg) == CollectCoins(s, cfg)
  {
    var r := CollectCoins(s, cfg);
    NoPickupsAfterCollect(s.coins, cfg.maxCoins, s.frogX, s.frogY, cfg.maxCoins);
    assert Collect(r.coins, cfg.maxCoins, s.frogX, s.frogY) == r.coins;
  }

  // ---------------------------------------------------------------------
  // check_collision (game.c:246-274)
  // ---------------------------------------------------------------------

  /** A car's hitbox spans speed cells on each side of it on its row, whatever
      its spawn delay (a car that is not drawn still hits). */
  predicate CarHits(c: Car, x: int, y: int) {
    c.y == y && c.x - c.speed <= x <= c.x + c.speed
  }

  /** An obstacle covers its anchor cell and the two cells to its right. */
  predicate ObstacleHits(o: Obstacle, x: int, y: int) {
    o.y == y && o.x <= x <= o.x + 2
  }

  /** The collision test: a carried frog is immune; otherwise any of the
      first max_cars cars, any placed obstacle, or (from level 2) the stork on
      the frog's cell is a hit. */
  predicate Collides(s: World, cfg: Config)
    requires WellFormed(s, cfg)
  {
    && !s.frogCarried
    && ( (exists i :: 0 <= i < cfg.maxCars && CarHits(s.cars[i], s.frogX, s.frogY))
      || (exists i :: 0 <= i < s.numObstacles && ObstacleHits(s.obstacles[i], s.frogX, s.frogY))
      || (s.level >= 2 && s.storkX == s.frogX && s.storkY == s.frogY))
  }

  // ---------------------------------------------------------------------
  // check_game_events (main.c:71-80)
  // ---------------------------------------------------------------------

  /** One frame's events: update, then coins, then the collision test, whose
      hit costs a life and puts the frog back on its start cell. */
  function Events(s: World, cfg: Config, rng: Stream, pos: nat): (r: (World, nat))
    requires WellFormed(s, cfg)
    ensures WellFormed(r.0, cfg) && r.1 >= pos
    ensures s.lives - 1 <= r.0.lives <= s.lives
  {
    var (u, p) := UpdateGame(s, cfg, rng, pos);
    var t := CollectCoins(u, cfg);
    if Collides(t, cfg) then
      (t.(lives := t.lives - 1, frogX := cfg.screenWidth / 2, frogY := cfg.screenHeight - 2), p)
    else (t, p)
  }

  /** A frame's events cost at most one life: when the (updated, collected)
      state collides, exactly one life goes and the frog is on its start
      cell; otherwise the lives stay.  Coins picked up on that frame are
      scored either way.  Level, obstacles and the stork never change, and
      the screen invariant survives. */
  lemma EventsFacts(s: World, cfg: Config, rng: Stream, pos: nat)
    requires WellFormed(s, cfg)
    ensures var u := UpdateGame(s, cfg, rng, pos).0;
      var r := Events(s, cfg, rng, pos).0;
      && WellFormed(u, cfg)
      && WellFormed(r, cfg)
      && var t := CollectCoins(u, cfg);
      && r.score == t.score && r.coins == t.coins
      && (Collides(t, cfg) ==>
            r.lives == s.lives - 1 && r.frogX == cfg.screenWidth / 2 && r.frogY == cfg.screenHeight - 2)
      && (!Collides(t, cfg) ==> r.lives == s.lives && r.frogX == u.frogX && r.frogY == u.frogY)
      && s.score <= r.score <= s.score + cfg.maxCoins
      && r.level == s.level && r.obstacles == s.obstacles && r.numObstacles == s.numObstacles
      && r.storkX == s.storkX && r.storkY == s.storkY
      && (InBounds(s, cfg) ==> InBounds(r, cfg))
  {
    UpdateGameFacts(s, cfg, rng, pos);
    var u := UpdateGame(s, cfg, rng, pos).0;
    CollectCoinsFacts(u, cfg);
    if InBounds(s, cfg) {
      UpdateGameKeepsInBounds(s, cfg, rng, pos);
    }
  }
}
