/**
 * The game simulation: the run state of one snake game, what each operation
 * does to it, and the invariants that every operation keeps.
 *
 * Each operation is given twice, in the two shapes the model needs. A
 * function on a `Snapshot` value (ResetSpec, UpdateSpec, ...) says what the
 * operation computes; the lemmas state its properties. The `SnakeGame` class
 * holds the same state in mutable fields, and each of its methods changes
 * those fields step by step and promises `State() == XSpec(old(State()), ...)`.
 */
module Game {
  import opened Wrappers
  import opened Grid
  import opened Direction
  import opened Speed
  import opened Screens
  import opened Food

  /** The persisted statistics the game folds a finished run into. */
  datatype Stats = Stats(maxScore: int, totalFood: int, gamesPlayed: int)

  /** Every field of the game object that the simulation reads or writes. */
  datatype Snapshot = Snapshot(
    gameState: string,
    difficulty: string,
    snake: seq<Pos>,
    food: Option<Pos>,
    dx: int,
    dy: int,
    score: int,
    level: int,
    foodEaten: int,
    gameSpeed: real,
    loopRunning: bool,
    stats: Stats)

  const ScorePerFood: int := 10
  const FoodPerLevel: int := 5

  function Max(a: int, b: int): (r: int)
    ensures r >= a && r >= b && (r == a || r == b)
  {
    if a >= b then a else b
  }

  /** The start tile of every run: the middle of the board, rounded down. */
  function Center(n: int): (p: Pos)
    ensures n > 0 ==> InBounds(p, n)
  {
    Pos(n / 2, n / 2)
  }

  // ================================================================ operations

  /** A new run: one segment in the middle, standing still, counters reset. */
  function ResetSpec(s: Snapshot, n: int, draws: seq<Draw>): Snapshot
    requires HasFreeDraw(draws, n, [Center(n)])
  {
    s.(snake := [Center(n)], dx := 0, dy := 0, score := 0, level := 1, foodEaten := 0,
       gameSpeed := DifficultySpeed(s.difficulty),
       food := Some(PlaceFood(draws, n, [Center(n)])))
  }

  /** Starting a game: the game screen, a reset run and a running tick loop. */
  function StartSpec(s: Snapshot, n: int, draws: seq<Draw>): Snapshot
    requires HasFreeDraw(draws, n, [Center(n)])
  {
    ResetSpec(s.(gameState := "game"), n, draws).(loopRunning := true)
  }

  /** The tile the head would move to on the next tick. */
  function NextHead(s: Snapshot): Pos
    requires |s.snake| >= 1
  {
    Translate(s.snake[0], s.dx, s.dy)
  }

  /** A tick does something only in the game state and with a direction set. */
  predicate Moves(s: Snapshot)
  {
    s.gameState == "game" && !(s.dx == 0 && s.dy == 0)
  }

  /** The next tick moves the head onto the food without colliding. */
  predicate Eats(s: Snapshot, n: int)
  {
    Moves(s) && |s.snake| >= 1 && !Collides(NextHead(s), s.snake, n) && s.food == Some(NextHead(s))
  }

  /**
   * What a tick needs: a head whenever the game state is on, and a free tile
   * among the random draws whenever the tick eats and food must be placed anew.
   */
  predicate TickReady(s: Snapshot, n: int, draws: seq<Draw>)
  {
    && (s.gameState == "game" ==> |s.snake| >= 1)
    && (Eats(s, n) ==> HasFreeDraw(draws, n, [NextHead(s)] + s.snake))
  }

  /** The end of a run: game-over screen, loop stopped, statistics updated. */
  function GameOverSpec(s: Snapshot): Snapshot
  {
    s.(gameState := StateName("game-over-screen"), loopRunning := false,
       stats := s.stats.(maxScore := Max(s.stats.maxScore, s.score),
                         gamesPlayed := s.stats.gamesPlayed + 1))
  }

  /**
   * Eating, applied to a snake that has already grown by the new head: ten
   * points, one more food, a level-up with a faster loop on every fifth food,
   * and a new food tile off the grown snake.
   */
  function EatSpec(s: Snapshot, n: int, draws: seq<Draw>): Snapshot
    requires HasFreeDraw(draws, n, s.snake)
  {
    var eaten := s.foodEaten + 1;
    var levelUp := eaten % FoodPerLevel == 0;
    s.(score := s.score + ScorePerFood, foodEaten := eaten,
       stats := s.stats.(totalFood := s.stats.totalFood + 1),
       level := if levelUp then s.level + 1 else s.level,
       gameSpeed := if levelUp then LevelUpSpeed(s.gameSpeed) else s.gameSpeed,
       loopRunning := if levelUp then true else s.loopRunning,
       food := Some(PlaceFood(draws, n, s.snake)))
  }

  /** One tick of the game loop. */
  function UpdateSpec(s: Snapshot, n: int, draws: seq<Draw>): Snapshot
    requires TickReady(s, n, draws)
  {
    if !Moves(s) then s
    else
      var head := NextHead(s);
      if Collides(head, s.snake, n) then GameOverSpec(s)
      else if s.food == Some(head) then EatSpec(s.(snake := [head] + s.snake), n, draws)
      else s.(snake := [head] + s.snake[..|s.snake| - 1])
  }

  /** Pausing: only from the game state; the pause screen renames the state. */
  function PauseSpec(s: Snapshot): Snapshot
  {
    if s.gameState == "game" then s.(gameState := StateName("pause-screen"), loopRunning := false)
    else s
  }

  /** Resuming: only from the state named "paused". */
  function ResumeSpec(s: Snapshot): Snapshot
  {
    if s.gameState == "paused" then s.(gameState := StateName("game-screen"), loopRunning := true)
    else s
  }

  /** Back to the main menu: loop stopped, state "menu". */
  function BackToMenuSpec(s: Snapshot): Snapshot
  {
    s.(gameState := "menu", loopRunning := false)
  }

  /** The game's key handler: space or escape pauses, other keys steer. */
  function KeyInputSpec(s: Snapshot, key: string): Snapshot
  {
    var k := Lower(key);
    if IsPauseKey(k) then PauseSpec(s)
    else
      var d := Steer(k, s.dx, s.dy);
      s.(dx := d.0, dy := d.1)
  }

  /** A key press reaches the game's key handler only in the game state. */
  function KeyDownSpec(s: Snapshot, key: string): Snapshot
  {
    if s.gameState == "game" then KeyInputSpec(s, key) else s
  }

  /** A finished touch steers only in the game state. */
  function SwipeSpec(s: Snapshot, deltaX: real, deltaY: real): Snapshot
  {
    if s.gameState != "game" then s
    else
      var d := Swipe(deltaX, deltaY, s.dx, s.dy);
      s.(dx := d.0, dy := d.1)
  }

  // ================================================================ events

  /** The inputs that drive the simulation during and between runs. */
  datatype Event =
    | Tick(tickDraws: seq<Draw>)
    | KeyDown(key: string)
    | TouchSwipe(deltaX: real, deltaY: real)
    | StartGame(startDraws: seq<Draw>)
    | ResumeGame
    | BackToMenu

  /** An event can be applied: its random draws are in [0, 1) and, where food is placed, one is free. */
  predicate StepReady(s: Snapshot, n: int, e: Event)
  {
    match e
    case Tick(d) => ValidDraws(d) && TickReady(s, n, d)
    case StartGame(d) => ValidDraws(d) && HasFreeDraw(d, n, [Center(n)])
    case _ => true
  }

  function Step(s: Snapshot, n: int, e: Event): Snapshot
    requires StepReady(s, n, e)
  {
    match e
    case Tick(d) => UpdateSpec(s, n, d)
    case KeyDown(key) => KeyDownSpec(s, key)
    case TouchSwipe(deltaX, deltaY) => SwipeSpec(s, deltaX, deltaY)
    case StartGame(d) => StartSpec(s, n, d)
    case ResumeGame => ResumeSpec(s)
    case BackToMenu => BackToMenuSpec(s)
  }

  predicate Runnable(s: Snapshot, n: int, events: seq<Event>)
    decreases |events|
  {
    |events| == 0 || (StepReady(s, n, events[0]) && Runnable(Step(s, n, events[0]), n, events[1..]))
  }

  /** The state after a whole sequence of events. */
  function Run(s: Snapshot, n: int, events: seq<Event>): Snapshot
    requires Runnable(s, n, events)
    decreases |events|
  {
    if |events| == 0 then s else Run(Step(s, n, events[0]), n, events[1..])
  }

  // ================================================================ invariants

  /**
   * The run invariant: a non-empty body of distinct, edge-connected tiles on
   * the board; food on a free tile; score and level in lock-step with the food
   * eaten; the interval between the floor and the difficulty's start value.
   */
  predicate RunOk(s: Snapshot, n: int)
  {
    && |s.snake| >= 1
    && AllInBounds(s.snake, n)
    && Distinct(s.snake)
    && Connected(s.snake)
    && s.food.Some? && InBounds(s.food.value, n) && s.food.value !in s.snake
    && s.foodEaten >= 0
    && s.score == ScorePerFood * s.foodEaten
    && s.level == 1 + s.foodEaten / FoodPerLevel
    && MinInterval <= s.gameSpeed <= DifficultySpeed(s.difficulty)
  }

  /**
   * The whole-object invariant: the direction is one of the five deltas, the
   * states that tick have a snake, and a snake that exists satisfies RunOk.
   */
  predicate Wellformed(s: Snapshot, n: int)
  {
    && IsDir(s.dx, s.dy)
    && ((s.gameState == "game" || s.gameState == "paused") ==> |s.snake| >= 1)
    && (|s.snake| >= 1 ==> RunOk(s, n))
  }

  /** The state the game object is in once its page has loaded. */
  function Initial(difficulty: string, stats: Stats): Snapshot
  {
    Snapshot(StateName("welcome-screen"), difficulty, [], None, 0, 0, 0, 1, 0, 150.0, false, stats)
  }

  // ================================================================ lemmas

  lemma InitialWellformed(n: int, difficulty: string, stats: Stats)
    ensures Initial(difficulty, stats).gameState == "welcome"
    ensures Wellformed(Initial(difficulty, stats), n)
  {
    WelcomeScreenState();
  }

  /** A new run starts with one centred segment, no direction and zero counters, and satisfies the run invariant. */
  lemma ResetShape(s: Snapshot, n: int, draws: seq<Draw>)
    requires n > 0 && ValidDraws(draws) && HasFreeDraw(draws, n, [Center(n)])
    ensures var r := ResetSpec(s, n, draws);
      && r.snake == [Pos(n / 2, n / 2)] && r.dx == 0 && r.dy == 0
      && r.score == 0 && r.level == 1 && r.foodEaten == 0
      && r.gameSpeed == DifficultySpeed(s.difficulty)
      && r.food.Some? && r.food.value != Pos(n / 2, n / 2)
      && RunOk(r, n) && Wellformed(r, n)
  {
  }

  /** A tick outside the game state, or with no direction set, changes nothing. */
  lemma UpdateIdle(s: Snapshot, n: int, draws: seq<Draw>)
    requires TickReady(s, n, draws)
    requires s.gameState != "game" || (s.dx == 0 && s.dy == 0)
    ensures UpdateSpec(s, n, draws) == s
  {
  }

  /** A colliding tick ends the run and leaves the snake where it was. */
  lemma UpdateCollides(s: Snapshot, n: int, draws: seq<Draw>)
    requires TickReady(s, n, draws) && Moves(s)
    requires Collides(NextHead(s), s.snake, n)
    ensures var r := UpdateSpec(s, n, draws);
      && r.gameState == "game-over" && !r.loopRunning
      && r.snake == s.snake && r.score == s.score && r.food == s.food
  {
    GameOverScreenState();
  }

  /**
   * A tick that neither collides nor eats moves the snake: the new head in front,
   * the last segment gone, the length and every counter unchanged.
   */
  lemma UpdateMoves(s: Snapshot, n: int, draws: seq<Draw>)
    requires TickReady(s, n, draws) && Moves(s)
    requires !Collides(NextHead(s), s.snake, n) && s.food != Some(NextHead(s))
    ensures var r := UpdateSpec(s, n, draws);
      && r.snake == [Translate(s.snake[0], s.dx, s.dy)] + s.snake[..|s.snake| - 1]
      && |r.snake| == |s.snake|
      && r.score == s.score && r.level == s.level && r.foodEaten == s.foodEaten
      && r.food == s.food && r.gameSpeed == s.gameSpeed && r.stats == s.stats
      && r.gameState == "game" && r.dx == s.dx && r.dy == s.dy
  {
  }

  /**
   * An eating tick grows the snake by its new head, adds ten points and one
   * food to the run and to the statistics, and puts new food off the snake.
   */
  lemma UpdateEats(s: Snapshot, n: int, draws: seq<Draw>)
    requires TickReady(s, n, draws) && Eats(s, n)
    ensures var r := UpdateSpec(s, n, draws);
      && r.snake == [NextHead(s)] + s.snake
      && |r.snake| == |s.snake| + 1
      && r.score == s.score + 10
      && r.foodEaten == s.foodEaten + 1
      && r.stats.totalFood == s.stats.totalFood + 1
      && r.food.Some? && r.food.value !in r.snake
      && r.gameState == "game" && r.dx == s.dx && r.dy == s.dy
  {
  }

  /**
   * The level rule: an eating tick raises the level by one and shortens the
   * interval to `max(50, 0.9 * interval)` exactly when the new food count is a
   * multiple of five; otherwise level and interval stay.
   */
  lemma LevelRule(s: Snapshot, n: int, draws: seq<Draw>)
    requires TickReady(s, n, draws) && Eats(s, n)
    ensures var r := UpdateSpec(s, n, draws);
      && (r.level == s.level + 1 <==> (s.foodEaten + 1) % 5 == 0)
      && (r.level == s.level <==> (s.foodEaten + 1) % 5 != 0)
      && r.gameSpeed == (if (s.foodEaten + 1) % 5 == 0 then (if s.gameSpeed * 0.9 >= 50.0 then s.gameSpeed * 0.9 else 50.0) else s.gameSpeed)
  {
  }

  /** Per tick the snake grows by one exactly when it eats, and otherwise keeps its length. */
  lemma UpdateLength(s: Snapshot, n: int, draws: seq<Draw>)
    requires TickReady(s, n, draws)
    ensures |UpdateSpec(s, n, draws).snake| == |s.snake| + (if Eats(s, n) then 1 else 0)
  {
  }

  /** Ticks never speed the game up beyond the floor, nor slow it down. */
  lemma UpdateIntervalMonotone(s: Snapshot, n: int, draws: seq<Draw>)
    requires TickReady(s, n, draws) && s.gameSpeed >= MinInterval
    ensures MinInterval <= UpdateSpec(s, n, draws).gameSpeed <= s.gameSpeed
  {
  }

  lemma LevelLockStep(foodEaten: int)
    requires foodEaten >= 0
    ensures 1 + (foodEaten + 1) / FoodPerLevel
         == 1 + foodEaten / FoodPerLevel + (if (foodEaten + 1) % FoodPerLevel == 0 then 1 else 0)
  {
  }

  /** Every tick keeps the whole-object invariant. */
  lemma UpdateKeepsWellformed(s: Snapshot, n: int, draws: seq<Draw>)
    requires Wellformed(s, n) && ValidDraws(draws) && TickReady(s, n, draws)
    ensures Wellformed(UpdateSpec(s, n, draws), n)
  {
    if !Moves(s) {
      return;
    }
    var head := NextHead(s);
    if Collides(head, s.snake, n) {
      return;
    }
    assert IsUnit(s.dx, s.dy);
    UnitStepIsAdjacent(s.snake[0], s.dx, s.dy);
    assert n > 0 by {
      assert InBounds(s.snake[0], n);
    }
    if s.food == Some(head) {
      var grown := [head] + s.snake;
      PrependKeepsShape(head, s.snake, n);
      PrependKeepsConnected(head, s.snake);
      LevelLockStep(s.foodEaten);
      var r := UpdateSpec(s, n, draws);
      assert r.snake == grown;
    } else {
      var kept := s.snake[..|s.snake| - 1];
      DropLastKeepsShape(s.snake, n);
      assert head !in kept;
      PrependKeepsShape(head, kept, n);
      if |kept| >= 1 {
        assert kept[0] == s.snake[0];
        PrependKeepsConnected(head, kept);
      }
      assert s.food.value !in kept;
    }
  }

  /** Game over raises the best score to at least this run's score and counts one more game. */
  lemma GameOverStats(s: Snapshot)
    ensures var r := GameOverSpec(s);
      && r.stats.maxScore == Max(s.stats.maxScore, s.score)
      && r.stats.maxScore >= s.stats.maxScore && r.stats.maxScore >= s.score
      && r.stats.gamesPlayed == s.stats.gamesPlayed + 1
      && r.stats.totalFood == s.stats.totalFood
      && r.gameState == "game-over" && !r.loopRunning
  {
    GameOverScreenState();
  }

  /**
   * Pausing leaves the state "pause", not "paused", so the resume guard never
   * holds: resuming changes nothing, the loop stays stopped and later ticks do
   * nothing.
   */
  lemma PauseThenResumeIsStuck(s: Snapshot, n: int, draws: seq<Draw>)
    requires s.gameState == "game"
    ensures var p := PauseSpec(s);
      && p.gameState == "pause" && !p.loopRunning
      && ResumeSpec(p) == p
      && TickReady(p, n, draws) && UpdateSpec(p, n, draws) == p
  {
    PauseScreenState();
  }

  /**
   * The no-reversal rule holds per key press, not per tick. Two presses before
   * the next tick can turn a snake moving right first up, then left; that tick
   * then runs the head into the segment behind it and ends the run.
   */
  lemma TwoKeysReverse(s: Snapshot, n: int, draws: seq<Draw>)
    requires s.gameState == "game" && s.dx == 1 && s.dy == 0
    requires |s.snake| >= 2 && s.snake[1] == Translate(s.snake[0], -1, 0)
    ensures var t := KeyDownSpec(KeyDownSpec(s, "w"), "a");
      && t.dx == -s.dx && t.dy == s.dy
      && TickReady(t, n, draws)
      && UpdateSpec(t, n, draws).gameState == "game-over"
  {
    var t := KeyDownSpec(KeyDownSpec(s, "w"), "a");
    assert Lower("w") == "w" && Lower("a") == "a";
    assert NextHead(t) == t.snake[1];
    GameOverScreenState();
  }

  /** Every event keeps the whole-object invariant. */
  lemma StepKeepsWellformed(s: Snapshot, n: int, e: Event)
    requires n > 0 && Wellformed(s, n) && StepReady(s, n, e)
    ensures Wellformed(Step(s, n, e), n)
  {
    match e
    case Tick(d) => UpdateKeepsWellformed(s, n, d);
    case StartGame(d) => ResetShape(s.(gameState := "game"), n, d);
    case KeyDown(key) => PauseScreenState();
    case ResumeGame => GameScreenState();
    case _ =>
  }

  /** No event leaves the state named "paused" behind, so ResumeSpec never fires. */
  lemma StepNeverPaused(s: Snapshot, n: int, e: Event)
    requires s.gameState != "paused" && StepReady(s, n, e)
    ensures Step(s, n, e).gameState != "paused"
  {
    GameOverScreenState();
    PauseScreenState();
  }

  /**
   * No event turns a moving snake straight round: the new direction is never
   * the negation of a non-zero old one, and it stays one of the five deltas.
   */
  lemma StepNeverReverses(s: Snapshot, n: int, e: Event)
    requires StepReady(s, n, e) && IsDir(s.dx, s.dy)
    ensures var r := Step(s, n, e);
      && IsDir(r.dx, r.dy)
      && ((s.dx, s.dy) != (0, 0) ==> (r.dx, r.dy) != (-s.dx, -s.dy))
  {
  }

  /** The invariant holds after any sequence of events. */
  lemma {:induction false} RunKeepsWellformed(s: Snapshot, n: int, events: seq<Event>)
    requires n > 0 && Wellformed(s, n) && Runnable(s, n, events)
    ensures Wellformed(Run(s, n, events), n)
    decreases |events|
  {
    if |events| > 0 {
      StepKeepsWellformed(s, n, events[0]);
      RunKeepsWellformed(Step(s, n, events[0]), n, events[1..]);
    }
  }

  /** "paused" is never reached, from any state that is not already "paused". */
  lemma {:induction false} RunNeverPaused(s: Snapshot, n: int, events: seq<Event>)
    requires s.gameState != "paused" && Runnable(s, n, events)
    ensures Run(s, n, events).gameState != "paused"
    decreases |events|
  {
    if |events| > 0 {
      StepNeverPaused(s, n, events[0]);
      RunNeverPaused(Step(s, n, events[0]), n, events[1..]);
    }
  }

  predicate AllTicks(events: seq<Event>)
  {
    forall i :: 0 <= i < |events| ==> events[i].Tick?
  }

  /** Ticks outside the game state change nothing. */
  lemma {:induction false} TicksWhenIdle(s: Snapshot, n: int, events: seq<Event>)
    requires s.gameState != "game" && AllTicks(events) && Runnable(s, n, events)
    ensures Run(s, n, events) == s
    decreases |events|
  {
    if |events| > 0 {
      assert Step(s, n, events[0]) == s;
      TicksWhenIdle(s, n, events[1..]);
    }
  }

  /**
   * One tick that leaves the game running moves the head by one step of the
   * unchanged direction (no step at all while the direction is unset).
   */
  lemma TickAdvancesHead(s: Snapshot, n: int, draws: seq<Draw>)
    requires s.gameState == "game" && TickReady(s, n, draws)
    requires UpdateSpec(s, n, draws).gameState == "game"
    ensures var r := UpdateSpec(s, n, draws);
      && |r.snake| >= 1 && r.dx == s.dx && r.dy == s.dy
      && r.snake[0] == Translate(s.snake[0], s.dx, s.dy)
  {
    if Moves(s) && Collides(NextHead(s), s.snake, n) {
      GameOverScreenState();
    }
  }

  /**
   * After k ticks that leave the game running, the head has moved k unit steps
   * in the direction of travel, which the ticks do not change.
   */
  lemma {:induction false} TicksAdvanceHead(s: Snapshot, n: int, events: seq<Event>)
    requires s.gameState == "game" && |s.snake| >= 1
    requires AllTicks(events) && Runnable(s, n, events)
    requires Run(s, n, events).gameState == "game"
    ensures var r := Run(s, n, events);
      && |r.snake| >= 1 && r.dx == s.dx && r.dy == s.dy
      && r.snake[0] == Pos(s.snake[0].x + |events| * s.dx, s.snake[0].y + |events| * s.dy)
    decreases |events|
  {
    if |events| > 0 {
      var d := events[0].tickDraws;
      assert events[0] == Tick(d);
      var rest := events[1..];
      assert StepReady(s, n, events[0]) && Runnable(Step(s, n, events[0]), n, rest);
      var t := UpdateSpec(s, n, d);
      assert Step(s, n, events[0]) == t;
      assert AllTicks(rest) by {
        forall i | 0 <= i < |rest| ensures rest[i].Tick? {
          assert rest[i] == events[i + 1];
        }
      }
      assert Run(s, n, events) == Run(t, n, rest);
      if t.gameState != "game" {
        TicksWhenIdle(t, n, rest);
        assert false;
      }
      TickAdvancesHead(s, n, d);
      TicksAdvanceHead(t, n, rest);
      StepsAdd(s.snake[0].x, s.dx, |rest|);
      StepsAdd(s.snake[0].y, s.dy, |rest|);
    }
  }

  lemma StepsAdd(start: int, delta: int, k: nat)
    ensures start + delta + k * delta == start + (k + 1) * delta
  {
  }

  /**
   * On a 20 by 20 board a new run starts at (10, 10); after the key "d" (right)
   * one tick puts the head on (11, 10) and the snake keeps its single segment.
   */
  lemma FirstMoveScenario(s: Snapshot)
    ensures HasFreeDraw([Draw(0.0, 0.0)], 20, [Center(20)])
    ensures var started := StartSpec(s, 20, [Draw(0.0, 0.0)]);
      && started.snake == [Pos(10, 10)] && started.food == Some(Pos(0, 0))
      && var turned := KeyDownSpec(started, "d");
      && turned.dx == 1 && turned.dy == 0
      && TickReady(turned, 20, [])
      && UpdateSpec(turned, 20, []).snake == [Pos(11, 10)]
  {
    var d := Draw(0.0, 0.0);
    assert TileOf(d, 20) == Pos(0, 0);
    assert [d][0] == d;
    var started := StartSpec(s, 20, [d]);
    assert started.gameState == "game";
    assert Lower("d") == "d";
    var turned := KeyDownSpec(started, "d");
    assert turned == started.(dx := 1, dy := 0);
    assert !Collides(Pos(11, 10), [Pos(10, 10)], 20);
  }

  /** A snake moving right from column 19 of a 20 by 20 board hits the wall and the run ends. */
  lemma WallScenario(s: Snapshot, y: int)
    requires 0 <= y < 20 && s.gameState == "game" && s.dx == 1 && s.dy == 0
    requires s.snake == [Pos(19, y), Pos(18, y), Pos(17, y)]
    ensures TickReady(s, 20, []) && UpdateSpec(s, 20, []).gameState == "game-over"
  {
    GameOverScreenState();
  }

  // ================================================================ the game object

  /** The game object: its simulation fields, updated in place by its methods. */
  class SnakeGame {
    /** The board is `tileCount` tiles wide and high. */
    const tileCount: int
    var gameState: string
    /** The difficulty setting, the only setting the simulation reads. */
    var difficulty: string
    /** The body, head first. */
    var snake: seq<Pos>
    var food: Option<Pos>
    var dx: int
    var dy: int
    var score: int
    var level: int
    var foodEaten: int
    /** The tick interval in milliseconds. */
    var gameSpeed: real
    /** A repeating timer is installed that calls Update. */
    var loopRunning: bool
    var stats: Stats

    function State(): Snapshot
      reads this
    {
      Snapshot(gameState, difficulty, snake, food, dx, dy, score, level, foodEaten,
               gameSpeed, loopRunning, stats)
    }

    ghost predicate Valid()
      reads this
    {
      tileCount > 0 && Wellformed(State(), tileCount)
    }

    /** The object as the page creates it, with the stored difficulty and statistics loaded. */
    constructor (n: int, savedDifficulty: string, savedStats: Stats)
      requires n > 0
      ensures Valid() && tileCount == n
      ensures State() == Initial(savedDifficulty, savedStats)
      ensures gameState == "welcome"
    {
      tileCount := n;
      gameState := "welcome";
      snake := [];
      food := None;
      dx, dy := 0, 0;
      score, level, foodEaten := 0, 1, 0;
      gameSpeed := 150.0;
      loopRunning := false;
      difficulty := savedDifficulty;
      stats := savedStats;
      new;
      ShowScreen("welcome-screen");
      InitialWellformed(n, savedDifficulty, savedStats);
    }

    /** Showing a screen renames the game state after the screen id. */
    method ShowScreen(screenId: string)
      modifies this
      ensures State() == old(State()).(gameState := StateName(screenId))
    {
      gameState := StateName(screenId);
    }

    /** The collision query: walls first, then every segment in turn. */
    method CheckCollision(head: Pos) returns (hit: bool)
      ensures hit == Collides(head, snake, tileCount)
    {
      if head.x < 0 || head.x >= tileCount || head.y < 0 || head.y >= tileCount {
        return true;
      }
      for i := 0 to |snake|
        invariant head !in snake[..i]
      {
        var segment := snake[i];
        if head.x == segment.x && head.y == segment.y {
          return true;
        }
      }
      assert snake[..|snake|] == snake;
      return false;
    }

    /** Places the food on the first free tile the random draws offer. */
    method GenerateFood(draws: seq<Draw>)
      requires HasFreeDraw(draws, tileCount, snake)
      modifies this
      ensures State() == old(State()).(food := Some(PlaceFood(draws, tileCount, old(snake))))
    {
      var tile := SampleFreeTile(draws, tileCount, snake);
      food := Some(tile);
    }

    method ResetGame(draws: seq<Draw>)
      requires HasFreeDraw(draws, tileCount, [Center(tileCount)])
      modifies this
      ensures State() == ResetSpec(old(State()), tileCount, draws)
    {
      var centerX := tileCount / 2;
      var centerY := tileCount / 2;
      snake := [Pos(centerX, centerY)];
      dx := 0;
      dy := 0;
      score := 0;
      level := 1;
      foodEaten := 0;
      gameSpeed := DifficultySpeed(difficulty);
      GenerateFood(draws);
    }

    method StartGame(draws: seq<Draw>)
      requires Valid() && ValidDraws(draws) && HasFreeDraw(draws, tileCount, [Center(tileCount)])
      modifies this
      ensures Valid()
      ensures State() == StartSpec(old(State()), tileCount, draws)
    {
      ShowScreen("game-screen");
      gameState := "game";
      ResetGame(draws);
      loopRunning := true;
      StepKeepsWellformed(old(State()), tileCount, Event.StartGame(draws));
    }

    /** Eating, called once the new head is already in front of the body. */
    method EatFood(draws: seq<Draw>)
      requires HasFreeDraw(draws, tileCount, snake)
      modifies this
      ensures State() == EatSpec(old(State()), tileCount, draws)
    {
      score := score + 10;
      foodEaten := foodEaten + 1;
      stats := stats.(totalFood := stats.totalFood + 1);
      if foodEaten % 5 == 0 {
        level := level + 1;
        gameSpeed := LevelUpSpeed(gameSpeed);
        loopRunning := true;
      }
      GenerateFood(draws);
    }

    /** One tick of the game loop. */
    method Update(draws: seq<Draw>)
      requires Valid() && ValidDraws(draws) && TickReady(State(), tileCount, draws)
      modifies this
      ensures Valid()
      ensures State() == UpdateSpec(old(State()), tileCount, draws)
    {
      ghost var s0 := State();
      UpdateKeepsWellformed(s0, tileCount, draws);
      if gameState != "game" {
        return;
      }
      if dx == 0 && dy == 0 {
        return;
      }
      var head := Pos(snake[0].x + dx, snake[0].y + dy);
      assert Moves(s0) && head == NextHead(s0);
      var hit := CheckCollision(head);
      if hit {
        GameOver();
        return;
      }
      snake := [head] + snake;
      if food == Some(head) {
        assert State() == s0.(snake := [head] + s0.snake);
        EatFood(draws);
      } else {
        snake := snake[..|snake| - 1];
        assert snake == [head] + s0.snake[..|s0.snake| - 1];
        assert State() == UpdateSpec(s0, tileCount, draws);
      }
    }

    method GameOver()
      modifies this
      ensures State() == GameOverSpec(old(State()))
    {
      gameState := "gameOver";
      loopRunning := false;
      stats := stats.(maxScore := Max(stats.maxScore, score));
      stats := stats.(gamesPlayed := stats.gamesPlayed + 1);
      ShowScreen("game-over-screen");
    }

    method PauseGame()
      requires Valid()
      modifies this
      ensures Valid()
      ensures State() == PauseSpec(old(State()))
    {
      if gameState == "game" {
        gameState := "paused";
        loopRunning := false;
        ShowScreen("pause-screen");
        PauseScreenState();
      }
    }

    method ResumeGame()
      requires Valid()
      modifies this
      ensures Valid()
      ensures State() == ResumeSpec(old(State()))
    {
      if gameState == "paused" {
        gameState := "game";
        ShowScreen("game-screen");
        loopRunning := true;
        GameScreenState();
      }
    }

    method BackToMenu()
      requires Valid()
      modifies this
      ensures Valid()
      ensures State() == BackToMenuSpec(old(State()))
    {
      loopRunning := false;
      ShowScreen("main-menu");
      gameState := "menu";
    }

    /** The game's key handler, given the key name of the event. */
    method HandleGameInput(key: string)
      requires Valid()
      modifies this
      ensures Valid()
      ensures State() == KeyInputSpec(old(State()), key)
    {
      var k := Lower(key);
      if k == " " || k == "escape" {
        PauseGame();
        return;
      }
      if (k == "w" || k == "arrowup") && dy == 0 {
        dx := 0;
        dy := -1;
      } else if (k == "s" || k == "arrowdown") && dy == 0 {
        dx := 0;
        dy := 1;
      } else if (k == "a" || k == "arrowleft") && dx == 0 {
        dx := -1;
        dy := 0;
      } else if (k == "d" || k == "arrowright") && dx == 0 {
        dx := 1;
        dy := 0;
      }
    }

    /** The document's key listener for the game. */
    method OnKeyDown(key: string)
      requires Valid()
      modifies this
      ensures Valid()
      ensures State() == KeyDownSpec(old(State()), key)
    {
      if gameState == "game" {
        HandleGameInput(key);
      }
    }

    /** The document's touch-end listener, given the swipe's pixel deltas. */
    method OnTouchEnd(deltaX: real, deltaY: real)
      requires Valid()
      modifies this
      ensures Valid()
      ensures State() == SwipeSpec(old(State()), deltaX, deltaY)
    {
      if gameState != "game" {
        return;
      }
      if AbsReal(deltaX) > AbsReal(deltaY) {
        if AbsReal(deltaX) > MinSwipeDistance {
          if deltaX > 0.0 && dx == 0 {
            dx := 1;
            dy := 0;
          } else if deltaX < 0.0 && dx == 0 {
            dx := -1;
            dy := 0;
          }
        }
      } else {
        if AbsReal(deltaY) > MinSwipeDistance {
          if deltaY > 0.0 && dy == 0 {
            dx := 0;
            dy := 1;
          } else if deltaY < 0.0 && dy == 0 {
            dx := 0;
            dy := -1;
          }
        }
      }
    }
  }
}
