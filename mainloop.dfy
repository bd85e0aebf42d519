/** The per-frame orchestration of main.c: initialisation, the events of a
    frame, the key mapping, the goal step and the two nested loops of the
    run.  Keystrokes and clock readings come from a finite script, one of
    each per frame, and the run also stops when the script ends. */
module MainLoop {
  import opened Settings
  import opened State
  import opened Rng
  import Rules
  import Game

  /** The keys process_game_input tells apart: the four arrows, 'q' (save),
      'l' (load) and everything else, including no key at all. */
  datatype Key = Up | Down | Left | Right | Save | Load | Other

  /** What a key asks of the frog. */
  datatype Move = Stay | Step(dx: int, dy: int)

  predicate IsArrow(k: Key) {
    k == Up || k == Down || k == Left || k == Right
  }

  /** The key mapping of process_game_input (main.c:93-101): an arrow is a
      one-cell step along one axis, rows counting downwards, and every other
      key leaves the frog alone. */
  function KeyMove(k: Key): (m: Move)
    ensures m.Step? <==> IsArrow(k)
    ensures m.Step? ==> Abs(m.dx) + Abs(m.dy) == 1
    ensures k == Up ==> m == Step(0, -1)
    ensures k == Down ==> m == Step(0, 1)
    ensures k == Left ==> m == Step(-1, 0)
    ensures k == Right ==> m == Step(1, 0)
  {
    match k
    case Up => Step(0, -1)
    case Down => Step(0, 1)
    case Left => Step(-1, 0)
    case Right => Step(1, 0)
    case _ => Stay
  }

  /** process_game_input on the whole state: an arrow is a jump attempt at
      time `now`; any other key changes nothing.  Only the frog, its carry,
      its jump clock and step count, and the stork can change. */
  function Input(s: World, cfg: Config, k: Key, now: int): (r: World)
    ensures !IsArrow(k) ==> r == s
    ensures r == s.(frogX := r.frogX, frogY := r.frogY, frogCarried := r.frogCarried,
                    carryingCarIndex := r.carryingCarIndex, lastJumpTime := r.lastJumpTime,
                    frogSteps := r.frogSteps, storkX := r.storkX, storkY := r.storkY)
    ensures r.frogCarried ==> r == s
  {
    match KeyMove(k)
    case Stay => s
    case Step(dx, dy) => Rules.MoveFrog(s, cfg, dx, dy, now)
  }

  /** One frame of the inner loop of main_game_loop (main.c:35-36): the
      events, then the input.  Also returns the stream position, which
      never goes back.  A frame keeps the level and costs at most one life. */
  function Frame(s: World, cfg: Config, k: Key, now: int, rng: Stream, pos: nat): (r: (World, nat))
    requires WellFormed(s, cfg)
    ensures WellFormed(r.0, cfg) && r.1 >= pos && r.0.level == s.level
    ensures s.lives - 1 <= r.0.lives <= s.lives
  {
    Rules.EventsFacts(s, cfg, rng, pos);
    var (e, p) := Rules.Events(s, cfg, rng, pos);
    (Input(e, cfg, k, now), p)
  }

  /** Only an arrow can move the frog; no key changes the score, the lives,
      the level or the layout, and an in-bounds state stays in bounds. */
  lemma InputFacts(s: World, cfg: Config, k: Key, now: int)
    requires WellFormed(s, cfg) && InBounds(s, cfg)
    ensures var r := Input(s, cfg, k, now);
      && WellFormed(r, cfg) && InBounds(r, cfg)
      && (!IsArrow(k) ==> r == s)
      && r.score == s.score && r.lives == s.lives && r.level == s.level
      && r.cars == s.cars && r.coins == s.coins && r.obstacles == s.obstacles
  {
    match KeyMove(k)
    case Stay =>
    case Step(dx, dy) => Rules.MoveFrogKeepsInBounds(s, cfg, dx, dy, now);
  }

  /** Opposite arrows undo each other: a free frog that can step up and is
      then allowed to step down (cooldowns over) is back on its cell, and
      likewise for left then right. */
  lemma OppositeArrows(s: World, cfg: Config, t1: int, t2: int)
    requires !s.frogCarried && Rules.CooldownOver(s, t1) && t2 - t1 >= 1
    requires OnScreen(s.frogX, s.frogY, cfg)
    ensures s.frogY >= 1 ==>
      var r := Input(Input(s, cfg, Up, t1), cfg, Down, t2);
      r.frogX == s.frogX && r.frogY == s.frogY && r.frogSteps == s.frogSteps + 2
    ensures s.frogX >= 1 ==>
      var r := Input(Input(s, cfg, Left, t1), cfg, Right, t2);
      r.frogX == s.frogX && r.frogY == s.frogY && r.frogSteps == s.frogSteps + 2
  {
    Rules.MoveFrogAxes(s, cfg, 0, -1, t1);
    Rules.MoveFrogAxes(s, cfg, -1, 0, t1);
  }

  /** A frame costs at most one life, never lowers the score, keeps the level
      and keeps a state that is on the screen on the screen. */
  lemma FrameFacts(s: World, cfg: Config, k: Key, now: int, rng: Stream, pos: nat)
    requires WellFormed(s, cfg) && InBounds(s, cfg)
    ensures var r := Frame(s, cfg, k, now, rng, pos).0;
      && WellFormed(r, cfg) && InBounds(r, cfg)
      && s.lives - 1 <= r.lives <= s.lives
      && s.score <= r.score <= s.score + cfg.maxCoins
      && r.level == s.level
  {
    Rules.EventsFacts(s, cfg, rng, pos);
    var e := Rules.Events(s, cfg, rng, pos).0;
    InputFacts(e, cfg, k, now);
  }

  /** init_game (main.c:9-19): level 1, three lives, and both clocks at
      `now`.  The screen size it measures is the configuration the record
      was created with. */
  method InitGame(g: Game.GameState, now: int)
    requires g.Valid()
    modifies g
    ensures g.Valid()
    ensures g.View() == old(g.View()).(level := 1, lives := 3, startTime := now, lastJumpTime := now)
  {
    g.level := 1;
    g.lives := 3;
    g.startTime := now;
    g.lastJumpTime := now;
  }

  /** check_game_events (main.c:71-80). */
  method CheckGameEvents(g: Game.GameState, rnd: Rand)
    requires g.Valid()
    modifies g, g.cars, g.friendly, g.coins, rnd
    ensures g.Valid()
    ensures (g.View(), rnd.pos) == Rules.Events(old(g.View()), g.cfg, rnd.stream, old(rnd.pos))
  {
    g.UpdateGame(rnd);
    g.CheckCoinCollection();
    var hit := g.CheckCollision();
    if hit {
      g.lives := g.lives - 1;
      g.frogX := g.cfg.screenWidth / 2;
      g.frogY := g.cfg.screenHeight - 2;
    }
  }

  /** process_game_input (main.c:83-102) for the key read this frame. */
  method ProcessGameInput(g: Game.GameState, k: Key, now: int)
    requires g.Valid()
    modifies g
    ensures g.Valid()
    ensures g.View() == Input(old(g.View()), g.cfg, k, now)
  {
    if k == Up {
      g.MoveFrog(0, -1, now);
    } else if k == Down {
      g.MoveFrog(0, 1, now);
    } else if k == Left {
      g.MoveFrog(-1, 0, now);
    } else if k == Right {
      g.MoveFrog(1, 0, now);
    }
  }

  /** The inner loop of main_game_loop leaves after a frame whose state has
      no lives left or has the frog on row 1 (main.c:38-46). */
  predicate Stops(s: World) {
    s.lives == 0 || s.frogY == 1
  }

  /** What the goal step leaves behind, starting from the state `t` and the
      stream position `p` of the frame that reached row 1: five more
      points; below level 3 the next level with a fresh layout, the lives,
      both clocks and the carry kept, and `ok` false only when some redraw
      loop spent its whole budget; at level 3 no lives and nothing else
      changed. */
  ghost predicate AfterGoal(g: Game.GameState, rnd: Rand, t: World, p: nat, ok: bool, budget: nat)
    requires g.Valid()
    reads g, g.cars, g.friendly, g.coins, g.obstacles, rnd
  {
    && g.score == t.score + 5
    && (t.level < 3 ==>
          && g.level == t.level + 1 && g.lives == t.lives
          && g.FreshLevel(ok) && InBounds(g.View(), g.cfg) && Game.FreshLayout(g.View(), g.cfg, ok)
          && g.startTime == t.startTime && g.lastJumpTime == t.lastJumpTime
          && g.frogCarried == t.frogCarried && g.carryingCarIndex == t.carryingCarIndex
          && rnd.pos >= p && (!ok ==> rnd.pos >= p + budget))
    && (t.level >= 3 ==> ok && g.View() == t.(score := t.score + 5, lives := 0) && rnd.pos == p)
  }

  /** The goal step of main.c:41-44 as a relation on values: from the state
      and stream position `t` of the frame that reached row 1 it leads to
      `s` with five more points; below level 3 `s` is the next level on a
      fresh layout (with the redraw-bound properties under `ok`), with the
      lives, both clocks and the carry kept and the stream moved on; at
      level 3 `s` is `t` with five more points and no lives. */
  ghost predicate Scored(cfg: Config, ok: bool, t: (World, nat), s: (World, nat)) {
    var w := t.0;
    && s.0.score == w.score + 5
    && (w.level < 3 ==>
          && s.0.level == w.level + 1 && s.0.lives == w.lives && Game.FreshLayout(s.0, cfg, ok)
          && s.0.startTime == w.startTime && s.0.lastJumpTime == w.lastJumpTime
          && s.0.frogCarried == w.frogCarried && s.0.carryingCarIndex == w.carryingCarIndex
          && s.1 >= t.1)
    && (w.level >= 3 ==> s == (w.(score := w.score + 5, lives := 0), t.1))
  }

  /** The goal step in place ends as `Scored` says. */
  lemma AfterGoalScored(g: Game.GameState, rnd: Rand, t: World, p: nat, ok: bool, budget: nat)
    requires g.Valid() && AfterGoal(g, rnd, t, p, ok, budget)
    ensures Scored(g.cfg, ok, (t, p), (g.View(), rnd.pos))
  {
  }

  /** `Scored` under `ok` includes `Scored` without it. */
  lemma ScoredWeaken(cfg: Config, t: (World, nat), s: (World, nat))
    requires Scored(cfg, true, t, s)
    ensures Scored(cfg, false, t, s)
  {
    if t.0.level < 3 {
      Game.FreshLayoutWeaken(s.0, cfg);
    }
  }

  /** The goal step (main.c:41-44): five points, then next_level, which
      below level 3 makes the next level's layout and at level 3 ends the
      run by taking all lives. */
  method ReachGoal(g: Game.GameState, rnd: Rand, budget: nat) returns (ok: bool)
    requires g.Valid()
    modifies g, g.cars, g.friendly, g.coins, g.obstacles, rnd
    ensures g.Valid() && AfterGoal(g, rnd, old(g.View()), old(rnd.pos), ok, budget)
  {
    g.score := g.score + 5;
    ok := g.NextLevel(rnd, budget);
  }

  /** main_game_loop (main.c:27-50) over a script of keys and clock readings,
      one of each per frame.  The outer loop makes a new layout for the
      current level while lives remain; the inner loop, PlayLayout, runs
      frames until the lives are gone or the frog reaches row 1.  The run
      ends when the lives are gone or the script is used up; `frames` is the
      number of frames played and `ok` says that every layout's redraw loops
      ended by their own conditions (it is false only when some redraw loop
      spent its whole budget).

      Frame i runs key i at clock reading i from the state and stream
      position `before[i]` and ends in `after[i]`.  Within a layout each
      frame starts where the previous one ended; after a goal below level 3
      the next frame starts on a fresh layout with five more points, the
      next level and the same lives; no frame follows one that left no
      lives, nor a goal at level 3; and the record follows the last frame
      as `Ends` says.  All of this is `Account`.  Along the way the score never falls,
      the lives never rise, the level only climbs and never past 3, and
      every entity stays on the screen. */
  method MainGameLoop(g: Game.GameState, rnd: Rand, keys: seq<Key>, clock: seq<int>, budget: nat)
    returns (frames: nat, ok: bool, ghost before: seq<(World, nat)>, ghost after: seq<(World, nat)>)
    requires g.Valid() && |clock| == |keys|
    modifies g, g.cars, g.friendly, g.coins, g.obstacles, rnd
    ensures g.Valid() && frames <= |keys| && |before| == frames && |after| == frames
    ensures g.lives > 0 ==> frames == |keys|
    ensures old(g.lives) <= 0 ==> frames == 0 && g.View() == old(g.View()) && rnd.pos == old(rnd.pos)
    ensures Account(g.cfg, ok, keys, clock, rnd.stream, (old(g.View()), old(rnd.pos)), before, after,
                    (g.View(), rnd.pos))
    ensures frames > 0 ==> g.lives >= 0 && InBounds(g.View(), g.cfg)
    ensures g.score >= old(g.score) && g.lives <= old(g.lives)
    ensures old(g.level) <= g.level && (old(g.level) <= 3 ==> g.level <= 3)
    ensures rnd.pos >= old(rnd.pos) && (!ok ==> rnd.pos >= old(rnd.pos) + budget)
  {
    frames := 0;
    ok := true;
    before, after := [], [];
    while g.lives > 0 && frames < |keys|
      invariant g.Valid() && frames <= |keys| && |before| == frames && |after| == frames
      invariant old(g.lives) <= 0 ==> frames == 0 && g.View() == old(g.View()) && rnd.pos == old(rnd.pos)
      invariant Account(g.cfg, ok, keys, clock, rnd.stream, (old(g.View()), old(rnd.pos)), before, after,
                        (g.View(), rnd.pos))
      invariant frames > 0 ==> g.lives >= 0 && InBounds(g.View(), g.cfg)
      invariant g.score >= old(g.score) && g.lives <= old(g.lives)
      invariant old(g.level) <= g.level && (old(g.level) <= 3 ==> g.level <= 3)
      invariant rnd.pos >= old(rnd.pos) && (!ok ==> rnd.pos >= old(rnd.pos) + budget)
      decreases |keys| - frames
    {
      ghost var cur := (g.View(), rnd.pos);
      var played, layoutOk, trace := PlayNewLayout(g, rnd, keys, clock, frames, budget);
      AccountStep(g.cfg, ok, layoutOk, keys, clock, rnd.stream, (old(g.View()), old(rnd.pos)),
                  before, after, cur, trace, (g.View(), rnd.pos));
      ok := ok && layoutOk;
      before, after := before + trace[..|trace| - 1], after + trace[1..];
      frames := played;
    }
  }

  /** One turn of the outer loop of main_game_loop (main.c:28-47): a new
      layout, then the frames on it and the goal step if the frog reached
      row 1.  `trace` begins on the new layout as `Begins` says, and the
      record ends as `Ends` says. */
  method PlayNewLayout(g: Game.GameState, rnd: Rand, keys: seq<Key>, clock: seq<int>, start: nat, budget: nat)
    returns (frames: nat, ok: bool, ghost trace: seq<(World, nat)>)
    requires g.Valid() && |clock| == |keys| && start < |keys| && g.lives > 0
    modifies g, g.cars, g.friendly, g.coins, g.obstacles, rnd
    ensures g.Valid() && start < frames <= |keys| && |trace| == frames - start + 1
    ensures Run(g.cfg, keys, clock, rnd.stream, start, trace)
    ensures Begins(g.cfg, ok, (old(g.View()), old(rnd.pos)), trace[0])
    ensures forall i :: 1 <= i < |trace| - 1 ==> !Stops(trace[i].0)
    ensures frames < |keys| ==> Stops(trace[|trace| - 1].0)
    ensures Ends(g.cfg, ok, trace[|trace| - 1], (g.View(), rnd.pos))
    ensures g.lives >= 0 && InBounds(g.View(), g.cfg)
    ensures g.score >= old(g.score) && g.lives <= old(g.lives)
    ensures old(g.level) <= g.level && (old(g.level) <= 3 ==> g.level <= 3)
    ensures rnd.pos >= old(rnd.pos) && (!ok ==> rnd.pos >= old(rnd.pos) + budget)
  {
    var layoutOk := g.RestartGame(rnd, budget);
    ghost var laidOut := g.View();
    var levelOk;
    frames, levelOk, trace := PlayLayout(g, rnd, keys, clock, start, budget);
    ok := layoutOk && levelOk;
    if layoutOk && !ok {
      Game.FreshLayoutWeaken(laidOut, g.cfg);
    }
    ghost var t := trace[|trace| - 1];
    if t.0.lives != 0 && t.0.frogY == 1 {
      AfterGoalScored(g, rnd, t.0, t.1, levelOk, budget);
      if levelOk && !ok {
        ScoredWeaken(g.cfg, t, (g.View(), rnd.pos));
      }
    }
  }

  /** How the run of a layout begins on the record `s` the outer loop
      found: restart_game's fresh layout (with the redraw-bound properties
      under `ok`), with the score, lives, level, both clocks and the carry
      of `s`, and the stream moved on. */
  ghost predicate Begins(cfg: Config, ok: bool, s: (World, nat), b: (World, nat)) {
    && b.0.score == s.0.score && b.0.lives == s.0.lives && b.0.level == s.0.level
    && Kept(b.0, s.0) && Game.FreshLayout(b.0, cfg, ok) && b.1 >= s.1
  }

  /** How the record `now` follows the last frame `t` of a layout's run:
      when `t` left no lives or did not reach row 1 it is `t` itself;
      otherwise the goal step has followed, as `Scored` says. */
  ghost predicate Ends(cfg: Config, ok: bool, t: (World, nat), now: (World, nat)) {
    && (t.0.lives == 0 || t.0.frogY != 1 ==> now == t)
    && (t.0.lives != 0 && t.0.frogY == 1 ==> Scored(cfg, ok, t, now))
  }

  /** What MainGameLoop has played so far, from the record `s0` it was
      called on, with the record now at `now`: frame i ran from `before[i]`
      to `after[i]`; the first layout began on `s0`; consecutive frames are
      linked; the record follows the last frame as `Ends` says; and the
      script is used up unless the last frame stopped the inner loop. */
  ghost predicate Account(cfg: Config, ok: bool, keys: seq<Key>, clock: seq<int>, rng: Stream,
                          s0: (World, nat), before: seq<(World, nat)>, after: seq<(World, nat)>,
                          now: (World, nat))
  {
    && Played(cfg, keys, clock, rng, before, after)
    && Linked(cfg, ok, before, after)
    && (|before| == 0 ==> now == s0)
    && (|before| > 0 ==>
          && Begins(cfg, ok, s0, before[0])
          && Ends(cfg, ok, after[|after| - 1], now)
          && (|before| < |keys| ==> Stops(after[|after| - 1].0)))
  }

  /** One turn of the outer loop extends the account by the run of the new
      layout. */
  lemma AccountStep(cfg: Config, ok: bool, layoutOk: bool, keys: seq<Key>, clock: seq<int>, rng: Stream,
                    s0: (World, nat), before: seq<(World, nat)>, after: seq<(World, nat)>,
                    cur: (World, nat), trace: seq<(World, nat)>, now: (World, nat))
    requires Account(cfg, ok, keys, clock, rng, s0, before, after, cur)
    requires cur.0.lives > 0 && |before| < |keys|
    requires Run(cfg, keys, clock, rng, |before|, trace) && |trace| >= 2
    requires Begins(cfg, layoutOk, cur, trace[0]) && Ends(cfg, layoutOk, trace[|trace| - 1], now)
    requires forall i :: 1 <= i < |trace| - 1 ==> !Stops(trace[i].0)
    requires |before| + |trace| - 1 < |keys| ==> Stops(trace[|trace| - 1].0)
    ensures Account(cfg, ok && layoutOk, keys, clock, rng, s0, before + trace[..|trace| - 1],
                    after + trace[1..], now)
  {
    var ok' := ok && layoutOk;
    if ok && !layoutOk {
      LinkedWeaken(cfg, before, after);
      if |before| > 0 {
        Game.FreshLayoutWeaken(before[0].0, cfg);
        EndsWeaken(cfg, after[|after| - 1], cur);
      }
    }
    if layoutOk && !ok {
      Game.FreshLayoutWeaken(trace[0].0, cfg);
      EndsWeaken(cfg, trace[|trace| - 1], now);
    }
    if |before| > 0 {
      assert Continues(cfg, ok', after[|after| - 1], trace[0]);
    }
    Append(cfg, ok', keys, clock, rng, before, after, trace);
    var b, a := before + trace[..|trace| - 1], after + trace[1..];
    assert b[0] == (if |before| > 0 then before[0] else trace[0]);
    assert a[|a| - 1] == trace[|trace| - 1];
  }

  /** `Ends` under `ok` includes `Ends` without it. */
  lemma EndsWeaken(cfg: Config, t: (World, nat), now: (World, nat))
    requires Ends(cfg, true, t, now)
    ensures Ends(cfg, false, t, now)
  {
    if t.0.lives != 0 && t.0.frogY == 1 {
      ScoredWeaken(cfg, t, now);
    }
  }

  /** Consecutive frames of a run: within a layout the next frame starts
      where the last one ended; otherwise the last frame reached row 1 below
      level 3 with lives left, and the next starts with five more points, the
      next level, the same lives and the stream moved on. */
  ghost predicate Continues(cfg: Config, ok: bool, last: (World, nat), next: (World, nat)) {
    var t := last.0;
    && t.lives != 0
    && (!Stops(t) ==> next == last)
    && (Stops(t) ==>
          && t.level < 3 && next.0.score == t.score + 5
          && next.0.level == t.level + 1 && next.0.lives == t.lives
          && Kept(next.0, t) && Game.FreshLayout(next.0, cfg, ok)
          && next.1 >= last.1)
  }

  /** restart_game keeps both clocks and the carry of the record `s` it
      starts from in the record `r` it leaves. */
  predicate Kept(r: World, s: World) {
    && r.startTime == s.startTime && r.lastJumpTime == s.lastJumpTime
    && r.frogCarried == s.frogCarried && r.carryingCarIndex == s.carryingCarIndex
  }

  /** `before[i]` and `after[i]` are the state and stream position before
      and after frame i of the script, which runs key i at clock reading i. */
  ghost predicate Played(cfg: Config, keys: seq<Key>, clock: seq<int>, rng: Stream,
                         before: seq<(World, nat)>, after: seq<(World, nat)>)
  {
    && |clock| == |keys| && |before| == |after| <= |keys|
    && (forall i :: 0 <= i < |before| ==> PlayedAt(cfg, keys, clock, rng, before, after, i))
  }

  /** Frame i of the script ran from `before[i]` to `after[i]`. */
  ghost predicate PlayedAt(cfg: Config, keys: seq<Key>, clock: seq<int>, rng: Stream,
                           before: seq<(World, nat)>, after: seq<(World, nat)>, i: nat)
    requires |clock| == |keys| && |before| == |after| <= |keys| && i < |before|
  {
    && WellFormed(before[i].0, cfg)
    && after[i] == Frame(before[i].0, cfg, keys[i], clock[i], rng, before[i].1)
  }

  /** Each played frame but the last is followed as `Continues` says. */
  ghost predicate Linked(cfg: Config, ok: bool, before: seq<(World, nat)>, after: seq<(World, nat)>)
    requires |before| == |after|
  {
    forall i :: 0 <= i < |before| - 1 ==> Continues(cfg, ok, after[i], before[i + 1])
  }

  /** `Linked` under `ok` includes `Linked` without it. */
  lemma LinkedWeaken(cfg: Config, before: seq<(World, nat)>, after: seq<(World, nat)>)
    requires |before| == |after| && Linked(cfg, true, before, after)
    ensures Linked(cfg, false, before, after)
  {
    forall i | 0 <= i < |before| - 1
      ensures Continues(cfg, false, after[i], before[i + 1])
    {
      if Stops(after[i].0) {
        Game.FreshLayoutWeaken(before[i + 1].0, cfg);
      }
    }
  }

  /** `trace` is a run of frames from frame `start` of the script: every
      entry is well formed and each later entry is the frame of the one
      before it, with that frame's key and clock reading. */
  ghost predicate Run(cfg: Config, keys: seq<Key>, clock: seq<int>, rng: Stream, start: nat,
                      trace: seq<(World, nat)>)
  {
    && |clock| == |keys| && start + |trace| <= |keys| + 1
    && (forall i :: 0 <= i < |trace| ==> WellFormed(trace[i].0, cfg))
    && (forall i :: 0 <= i < |trace| - 1 ==> RunAt(cfg, keys, clock, rng, start, trace, i))
  }

  /** Entry i + 1 of a run is the frame of entry i. */
  ghost predicate RunAt(cfg: Config, keys: seq<Key>, clock: seq<int>, rng: Stream, start: nat,
                        trace: seq<(World, nat)>, i: nat)
    requires |clock| == |keys| && start + |trace| <= |keys| + 1 && i + 1 < |trace|
    requires WellFormed(trace[i].0, cfg)
  {
    trace[i + 1] == Frame(trace[i].0, cfg, keys[start + i], clock[start + i], rng, trace[i].1)
  }

  /** A run grows by an entry that is the frame of its last entry. */
  lemma Extend(cfg: Config, keys: seq<Key>, clock: seq<int>, rng: Stream, start: nat,
               trace: seq<(World, nat)>, next: (World, nat))
    requires Run(cfg, keys, clock, rng, start, trace) && |trace| >= 1 && start + |trace| <= |keys|
    requires WellFormed(next.0, cfg)
    requires RunAt(cfg, keys, clock, rng, start, trace + [next], |trace| - 1)
    ensures Run(cfg, keys, clock, rng, start, trace + [next])
  {
    var t := trace + [next];
    forall i | 0 <= i < |t|
      ensures WellFormed(t[i].0, cfg)
    {
      if i < |trace| {
        assert t[i] == trace[i];
      }
    }
    forall i | 0 <= i < |t| - 1
      ensures RunAt(cfg, keys, clock, rng, start, t, i)
    {
      if i < |trace| - 1 {
        KeepRunAt(cfg, keys, clock, rng, start, trace, t, i);
      }
    }
  }

  /** Step i of a run is a step of every run that agrees on entries i and
      i + 1. */
  lemma KeepRunAt(cfg: Config, keys: seq<Key>, clock: seq<int>, rng: Stream, start: nat,
                  trace: seq<(World, nat)>, t: seq<(World, nat)>, i: nat)
    requires |clock| == |keys| && start + |trace| <= |keys| + 1 && start + |t| <= |keys| + 1
    requires i + 1 < |trace| && i + 1 < |t| && trace[i] == t[i] && trace[i + 1] == t[i + 1]
    requires WellFormed(trace[i].0, cfg) && RunAt(cfg, keys, clock, rng, start, trace, i)
    ensures RunAt(cfg, keys, clock, rng, start, t, i)
  {
  }

  /** Appending the run of one layout, which starts at frame |before| and
      whose inner entries do not stop the loop, to the frames played before
      it keeps the per-frame account of MainGameLoop. */
  lemma Append(cfg: Config, ok: bool, keys: seq<Key>, clock: seq<int>, rng: Stream,
               before: seq<(World, nat)>, after: seq<(World, nat)>, trace: seq<(World, nat)>)
    requires Played(cfg, keys, clock, rng, before, after) && Linked(cfg, ok, before, after)
    requires Run(cfg, keys, clock, rng, |before|, trace) && |trace| >= 2
    requires forall k :: 1 <= k < |trace| - 1 ==> !Stops(trace[k].0)
    requires |before| > 0 ==> Continues(cfg, ok, after[|after| - 1], trace[0])
    ensures var b, a := before + trace[..|trace| - 1], after + trace[1..];
      && |b| == |a| == |before| + |trace| - 1
      && Played(cfg, keys, clock, rng, b, a) && Linked(cfg, ok, b, a)
  {
    AppendPlayed(cfg, keys, clock, rng, before, after, trace);
    var n := |before|;
    var b, a := before + trace[..|trace| - 1], after + trace[1..];
    forall i | 0 <= i < |b| - 1
      ensures Continues(cfg, ok, a[i], b[i + 1])
    {
      if i >= n {
        assert a[i] == trace[i - n + 1] && b[i + 1] == trace[i - n + 1];
      } else if i == n - 1 {
        assert a[i] == after[n - 1] && b[i + 1] == trace[0];
      } else {
        assert a[i] == after[i] && b[i + 1] == before[i + 1];
      }
    }
  }

  /** The per-frame half of Append. */
  lemma AppendPlayed(cfg: Config, keys: seq<Key>, clock: seq<int>, rng: Stream,
                     before: seq<(World, nat)>, after: seq<(World, nat)>, trace: seq<(World, nat)>)
    requires Played(cfg, keys, clock, rng, before, after)
    requires Run(cfg, keys, clock, rng, |before|, trace) && |trace| >= 2
    ensures Played(cfg, keys, clock, rng, before + trace[..|trace| - 1], after + trace[1..])
  {
    var n := |before|;
    var b, a := before + trace[..|trace| - 1], after + trace[1..];
    forall i | 0 <= i < |b|
      ensures PlayedAt(cfg, keys, clock, rng, b, a, i)
    {
      if i >= n {
        RunAtIsPlayedAt(cfg, keys, clock, rng, n, trace, b, a, i);
      } else {
        KeepPlayedAt(cfg, keys, clock, rng, before, after, b, a, i);
      }
    }
  }

  /** Step i - n of a run from frame n is frame i of a record that holds the
      run's entries at i and i + 1. */
  lemma RunAtIsPlayedAt(cfg: Config, keys: seq<Key>, clock: seq<int>, rng: Stream, n: nat,
                        trace: seq<(World, nat)>, b: seq<(World, nat)>, a: seq<(World, nat)>, i: nat)
    requires |clock| == |keys| && n <= i && n + |trace| <= |keys| + 1 && i - n + 1 < |trace|
    requires |b| == |a| <= |keys| && i < |b| && b[i] == trace[i - n] && a[i] == trace[i - n + 1]
    requires WellFormed(trace[i - n].0, cfg) && RunAt(cfg, keys, clock, rng, n, trace, i - n)
    ensures PlayedAt(cfg, keys, clock, rng, b, a, i)
  {
  }

  /** Frame i of a record is frame i of every record that agrees with it at
      i. */
  lemma KeepPlayedAt(cfg: Config, keys: seq<Key>, clock: seq<int>, rng: Stream,
                     before: seq<(World, nat)>, after: seq<(World, nat)>,
                     b: seq<(World, nat)>, a: seq<(World, nat)>, i: nat)
    requires |clock| == |keys| && |before| == |after| <= |keys| && i < |before|
    requires |b| == |a| <= |keys| && i < |b| && b[i] == before[i] && a[i] == after[i]
    requires PlayedAt(cfg, keys, clock, rng, before, after, i)
    ensures PlayedAt(cfg, keys, clock, rng, b, a, i)
  {
  }

  /** One frame of the inner loop (main.c:35-36) in place: the events, then
      the key.  It ends in exactly the state and stream position of `Frame`. */
  method PlayFrame(g: Game.GameState, rnd: Rand, k: Key, now: int)
    requires g.Valid() && InBounds(g.View(), g.cfg)
    modifies g, g.cars, g.friendly, g.coins, g.obstacles, rnd
    ensures g.Valid() && InBounds(g.View(), g.cfg)
    ensures (g.View(), rnd.pos) == Frame(old(g.View()), g.cfg, k, now, rnd.stream, old(rnd.pos))
    ensures g.score >= old(g.score) && g.level == old(g.level)
  {
    FrameFacts(g.View(), g.cfg, k, now, rnd.stream, rnd.pos);
    CheckGameEvents(g, rnd);
    ProcessGameInput(g, k, now);
  }

  /** Frame `i` of a run from frame `start`: the record, which is the run's
      last entry, plays key i at clock reading i, and the run grows by the
      frame's result. */
  method PlayNext(g: Game.GameState, rnd: Rand, keys: seq<Key>, clock: seq<int>, start: nat, i: nat,
                  ghost trace: seq<(World, nat)>)
    requires g.Valid() && InBounds(g.View(), g.cfg)
    requires Run(g.cfg, keys, clock, rnd.stream, start, trace) && start <= i < |keys| && |trace| == i - start + 1
    requires (g.View(), rnd.pos) == trace[|trace| - 1]
    modifies g, g.cars, g.friendly, g.coins, g.obstacles, rnd
    ensures g.Valid() && InBounds(g.View(), g.cfg)
    ensures Run(g.cfg, keys, clock, rnd.stream, start, trace + [(g.View(), rnd.pos)])
    ensures g.score >= old(g.score) && g.level == old(g.level)
    ensures old(g.lives) - 1 <= g.lives <= old(g.lives) && rnd.pos >= old(rnd.pos)
  {
    PlayFrame(g, rnd, keys[i], clock[i]);
    assert RunAt(g.cfg, keys, clock, rnd.stream, start, trace + [(g.View(), rnd.pos)], |trace| - 1);
    Extend(g.cfg, keys, clock, rnd.stream, start, trace, (g.View(), rnd.pos));
  }

  /** The inner loop of main_game_loop (main.c:30-46) on one layout, from
      frame `start` of the script.  `trace` lists the state and stream
      position before the first frame and after each frame played: each
      entry is the frame of the previous one with that frame's key and
      clock reading.  No frame but the last leaves no lives or the frog on
      row 1, and the loop stops early only after such a frame.  When the
      last frame left no lives, or did not reach row 1, the record is that
      frame's state; when it reached row 1 with lives left, the goal step
      follows. */
  method PlayLayout(g: Game.GameState, rnd: Rand, keys: seq<Key>, clock: seq<int>, start: nat, budget: nat)
    returns (frames: nat, ok: bool, ghost trace: seq<(World, nat)>)
    requires g.Valid() && |clock| == |keys| && start < |keys|
    requires g.lives > 0 && InBounds(g.View(), g.cfg)
    modifies g, g.cars, g.friendly, g.coins, g.obstacles, rnd
    ensures g.Valid() && start < frames <= |keys| && |trace| == frames - start + 1
    ensures trace[0] == (old(g.View()), old(rnd.pos)) && Run(g.cfg, keys, clock, rnd.stream, start, trace)
    ensures forall i :: 1 <= i < |trace| - 1 ==> !Stops(trace[i].0)
    ensures frames < |keys| ==> Stops(trace[|trace| - 1].0)
    ensures var t := trace[|trace| - 1];
      t.0.lives == 0 || t.0.frogY != 1 ==> ok && (g.View(), rnd.pos) == t
    ensures var t := trace[|trace| - 1];
      t.0.lives != 0 && t.0.frogY == 1 ==> AfterGoal(g, rnd, t.0, t.1, ok, budget)
    ensures g.lives >= 0 && InBounds(g.View(), g.cfg)
    ensures g.score >= old(g.score) && g.lives <= old(g.lives)
    ensures old(g.level) <= g.level && (old(g.level) <= 3 ==> g.level <= 3)
    ensures rnd.pos >= old(rnd.pos) && (!ok ==> rnd.pos >= old(rnd.pos) + budget)
  {
    frames, trace := PlayFrames(g, rnd, keys, clock, start);
    ok := true;
    if g.lives != 0 && g.frogY == 1 {
      ok := ReachGoal(g, rnd, budget);
    }
  }

  /** The frames of the inner loop up to its break (main.c:33-40 and 41),
      without the goal step: frames run from frame `start` until one leaves
      no lives or the frog on row 1, or the script ends.  The record ends in
      the state of the last entry of `trace`. */
  method PlayFrames(g: Game.GameState, rnd: Rand, keys: seq<Key>, clock: seq<int>, start: nat)
    returns (frames: nat, ghost trace: seq<(World, nat)>)
    requires g.Valid() && |clock| == |keys| && start < |keys|
    requires g.lives > 0 && InBounds(g.View(), g.cfg)
    modifies g, g.cars, g.friendly, g.coins, g.obstacles, rnd
    ensures g.Valid() && start < frames <= |keys| && |trace| == frames - start + 1
    ensures trace[0] == (old(g.View()), old(rnd.pos)) && Run(g.cfg, keys, clock, rnd.stream, start, trace)
    ensures forall i :: 1 <= i < |trace| - 1 ==> !Stops(trace[i].0)
    ensures frames < |keys| ==> Stops(trace[|trace| - 1].0)
    ensures (g.View(), rnd.pos) == trace[|trace| - 1]
    ensures g.lives >= 0 && InBounds(g.View(), g.cfg)
    ensures g.score >= old(g.score) && g.lives <= old(g.lives) && g.level == old(g.level)
    ensures rnd.pos >= old(rnd.pos)
  {
    frames := start;
    trace := [(g.View(), rnd.pos)];
    while frames < |keys|
      invariant g.Valid() && start <= frames <= |keys| && |trace| == frames - start + 1
      invariant trace[0] == (old(g.View()), old(rnd.pos)) && Run(g.cfg, keys, clock, rnd.stream, start, trace)
      invariant forall i :: 1 <= i < |trace| ==> !Stops(trace[i].0)
      invariant (g.View(), rnd.pos) == trace[|trace| - 1]
      invariant g.lives > 0 && InBounds(g.View(), g.cfg)
      invariant g.score >= old(g.score) && g.lives <= old(g.lives) && g.level == old(g.level)
      invariant rnd.pos >= old(rnd.pos)
      decreases |keys| - frames
    {
      PlayNext(g, rnd, keys, clock, start, frames, trace);
      trace := trace + [(g.View(), rnd.pos)];
      frames := frames + 1;
      if g.lives == 0 || g.frogY == 1 {
        return;
      }
    }
  }
}
