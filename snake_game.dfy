/**
 * The module state of static/snake.js as one object: settings, board
 * geometry, the snake and its food, the lifecycle flags and the interval
 * timer, with the functions that change them (`step`, `spawnFood`,
 * `resetGame`, `resizeCanvas`, `startLoop`, `gameOver`) and the state
 * changes the input and control events make.
 *
 * The browser's interval scheduler is part of the state: `armed` holds
 * the repeating timers it currently runs, by handle, with their periods,
 * and `nextHandle` is the handle the next `setInterval` returns (handles
 * are positive, so a held handle is truthy in `if (timer)`).
 */
module SnakeGame {
  import opened Wrappers
  import opened Text
  import opened SnakeRules

  class Game {
    var grid: int
    var tickSpeed: int
    var cellPx: int
    var cols: int
    var rows: int
    var snake: seq<Cell>
    var dir: Dir
    var nextDir: Dir
    var food: Option<Cell>
    var running: bool
    var timer: Option<nat>
    var score: int
    var paused: bool
    var touchStartX: int
    var touchStartY: int
    var armed: map<nat, int>
    var nextHandle: nat

    /** The scheduler runs exactly the timer held in `timer`, or nothing when it is null. */
    ghost predicate TimerBooked()
      reads this
    {
      && nextHandle >= 1
      && (timer.None? ==> armed == map[])
      && (timer.Some? ==> 1 <= timer.value < nextHandle && armed.Keys == {timer.value})
    }

    /** Geometry has been computed from the density setting. */
    ghost predicate Configured()
      reads this
    {
      grid >= 1 && cols == grid && rows >= MinRows && TimerBooked()
    }

    /** The object invariant: a non-empty snake of distinct cells and a non-negative score. */
    ghost predicate Valid()
      reads this
    {
      Configured() && |snake| >= 1 && Distinct(snake) && score >= 0
    }

    /** Between events, the loop's timer is armed exactly while the game runs. */
    ghost predicate LoopConsistent()
      reads this
    {
      timer.Some? <==> running
    }

    /** Every snake cell, and the food if there is one, lies on the current board. */
    ghost predicate OnBoard()
      reads this
    {
      AllInBoard(snake, cols, rows) && (food.Some? ==> InBoard(food.value, cols, rows))
    }

    /** The settings, the geometry and the touch origin, which the simulation never changes. */
    ghost function Setup(): (int, int, int, int, int, int, int)
      reads this
    {
      (grid, tickSpeed, cellPx, cols, rows, touchStartX, touchStartY)
    }

    /** The cell the head moves to on the next unpaused tick. */
    ghost function Aim(): Cell
      reads this
      requires Valid()
    {
      NextHead(snake[0], ResolveDir(dir, nextDir), cols, rows)
    }

    /** Module initialisation followed by `initUI`, which reads the two sliders and the canvas size. */
    constructor (gridSetting: int, speedSetting: int, width: int, height: int, draws: seq<Cell>)
      requires gridSetting >= 1 && width >= 1 && height >= 0 && |draws| > MaxTries
      ensures Valid() && LoopConsistent()
      ensures grid == gridSetting && tickSpeed == speedSetting
      ensures Geometry(cols, rows, cellPx) == ComputeGeometry(gridSetting, width, height)
      ensures snake == [StartCell(cols, rows)] && dir == Right && nextDir == Right
      ensures score == 0 && !paused && !running && timer.None?
      ensures food == SpawnedFood(draws, snake, None)
    {
      grid, tickSpeed, cellPx := 20, 8, 24;
      cols, rows := 0, 0;
      snake := [];
      dir, nextDir := Right, Right;
      food := None;
      running := false;
      timer := None;
      score := 0;
      paused := false;
      touchStartX, touchStartY := 0, 0;
      armed, nextHandle := map[], 1;
      new;
      grid := gridSetting;
      tickSpeed := speedSetting;
      ResizeCanvas(width, height);
      ResetGame(true, draws);
    }

    /** `resizeCanvas`: recompute the geometry from the canvas size; nothing else changes. */
    method ResizeCanvas(width: int, height: int)
      requires grid >= 1 && width >= 1 && height >= 0
      modifies this`cols, this`rows, this`cellPx
      ensures Geometry(cols, rows, cellPx) == ComputeGeometry(grid, width, height)
      ensures old(Valid()) ==> Valid()
    {
      cols := grid;
      rows := height * cols / width;
      if rows < MinRows {
        rows := MinRows;
      }
      cellPx := width / cols;
    }

    /**
     * `spawnFood`: draw random cells until one is off the snake, giving up
     * after the counter passes MaxTries; `draws[i]` is the cell of the
     * i-th draw.
     */
    method SpawnFood(draws: seq<Cell>)
      requires |draws| > MaxTries
      modifies this`food
      ensures food == SpawnedFood(draws, snake, old(food))
    {
      var tries := 0;
      while true
        invariant 0 <= tries <= MaxTries
        invariant food == old(food)
        invariant forall j :: 0 <= j < tries ==> draws[j] in snake
        decreases MaxTries - tries
      {
        var f := draws[tries];
        if f !in snake {
          food := Some(f);
          break;
        }
        tries := tries + 1;
        if tries > MaxTries {
          break;
        }
      }
    }

    /**
     * `resetGame`: a one-cell snake heading right, new food, score zero,
     * unpaused, the timer stopped, and restarted only for a running game
     * when `initial` is false.
     */
    method ResetGame(initial: bool, draws: seq<Cell>)
      requires Configured() && |draws| > MaxTries
      modifies this`snake, this`dir, this`nextDir, this`food, this`score, this`paused
      modifies this`timer, this`armed, this`nextHandle
      ensures Valid()
      ensures snake == [StartCell(cols, rows)] && dir == Right && nextDir == Right
      ensures food == SpawnedFood(draws, snake, old(food))
      ensures score == 0 && !paused
      ensures running && !initial ==> timer.Some? && armed == map[timer.value := TickInterval(tickSpeed)]
      ensures !(running && !initial) ==> timer.None? && armed == map[]
    {
      snake := [StartCell(cols, rows)];
      dir := Right;
      nextDir := Right;
      SpawnFood(draws);
      score := 0;
      paused := false;
      ClearAndRestart(running && !initial);
    }

    /** The tail of `resetGame`: clear the held timer, then start the loop again when asked. */
    method ClearAndRestart(restart: bool)
      requires TimerBooked()
      modifies this`timer, this`armed, this`nextHandle
      ensures TimerBooked()
      ensures restart ==> timer.Some? && armed == map[timer.value := TickInterval(tickSpeed)]
      ensures !restart ==> timer.None? && armed == map[]
    {
      StopTimer();
      if restart {
        StartLoop();
      }
    }

    /** `if (timer) { clearInterval(timer); timer = null; }`, shared by `resetGame` and `gameOver`. */
    method StopTimer()
      requires TimerBooked()
      modifies this`timer, this`armed
      ensures TimerBooked() && timer.None? && armed == map[]
    {
      if timer.Some? {
        armed := armed - {timer.value};
        timer := None;
      }
    }

    /** `startLoop`: cancel the held timer, then arm one repeating timer at the speed's interval. */
    method StartLoop()
      requires TimerBooked()
      modifies this`timer, this`armed, this`nextHandle
      ensures TimerBooked()
      ensures timer == Some(old(nextHandle)) && nextHandle == old(nextHandle) + 1
      ensures armed == map[old(nextHandle) := TickInterval(tickSpeed)]
    {
      if timer.Some? {
        armed := armed - {timer.value};
      }
      var interval := TickInterval(tickSpeed);
      var handle := nextHandle;
      armed := armed[handle := interval];
      nextHandle := nextHandle + 1;
      timer := Some(handle);
    }

    /** `gameOver`: the game stops running and no timer is left armed. */
    method GameOver()
      requires TimerBooked()
      modifies this`running, this`timer, this`armed
      ensures TimerBooked() && !running && timer.None? && armed == map[]
    {
      running := false;
      StopTimer();
    }

    /**
     * `step`, one tick. Paused: nothing changes. Otherwise the pending
     * direction is adopted unless it reverses the current one, the head
     * moves one cell with wraparound, and then either the game ends
     * (the new head is on the body, tail included) with snake, score and
     * food untouched, or the head is added and the tail dropped, or, when
     * the head lands on the food, the head is added, the score goes up by
     * one and food is placed again.
     */
    method Step(draws: seq<Cell>)
      requires Valid() && |draws| > MaxTries
      modifies this`dir, this`snake, this`score, this`food, this`running, this`timer, this`armed
      ensures Valid()
      ensures old(paused) ==> unchanged(this)
      ensures !old(paused) ==> dir == ResolveDir(old(dir), old(nextDir))
      ensures !old(paused) && old(Aim()) in old(snake) ==>
        && snake == old(snake) && score == old(score) && food == old(food)
        && !running && timer.None? && armed == map[]
      ensures !old(paused) && old(Aim()) !in old(snake) ==>
        running == old(running) && timer == old(timer) && armed == old(armed)
      ensures !old(paused) && old(Aim()) !in old(snake) && old(food) == Some(old(Aim())) ==>
        && snake == [old(Aim())] + old(snake) && score == old(score) + 1
        && food == SpawnedFood(draws, snake, old(food))
      ensures !old(paused) && old(Aim()) !in old(snake) && old(food) != Some(old(Aim())) ==>
        && snake == [old(Aim())] + old(snake)[..|old(snake)| - 1]
        && score == old(score) && food == old(food)
      ensures score >= old(score)
      ensures old(LoopConsistent()) ==> LoopConsistent()
      ensures old(OnBoard()) && AllInBoard(draws, cols, rows) ==> OnBoard()
    {
      if paused {
        return;
      }
      var pd := nextDir;
      if IsReversal(dir, pd) {
        // the reverse of the current direction is ignored
      } else {
        dir := pd;
      }
      var head := NextHead(snake[0], dir, cols, rows);
      if head in snake {
        GameOver();
        return;
      }
      Advance(head, draws);
    }

    /**
     * The second half of `step`, once the new head is known to be off the
     * body: add it in front, then either eat (score up by one, new food) or
     * drop the tail.
     */
    method Advance(head: Cell, draws: seq<Cell>)
      requires Valid() && |draws| > MaxTries
      requires InBoard(head, cols, rows) && head !in snake
      modifies this`snake, this`score, this`food
      ensures Valid()
      ensures old(food) == Some(head) ==>
        && snake == [head] + old(snake) && score == old(score) + 1
        && food == SpawnedFood(draws, snake, old(food))
      ensures old(food) != Some(head) ==>
        snake == [head] + old(snake)[..|old(snake)| - 1] && score == old(score) && food == old(food)
      ensures old(OnBoard()) && AllInBoard(draws, cols, rows) ==> OnBoard()
    {
      ghost var body := snake;
      if AllInBoard(body, cols, rows) {
        MoveKeepsBodyValid(body, head, cols, rows);
      } else {
        MoveKeepsDistinct(body, head);
      }
      snake := [head] + snake;
      if food.Some? && head == food.value {
        score := score + 1;
        SpawnFood(draws);
        if AllInBoard(draws, cols, rows) && SpawnSucceeds(draws, snake) {
          SpawnedFoodPlacement(draws, snake, old(food), cols, rows);
        }
      } else {
        assert snake[..|snake| - 1] == [head] + body[..|body| - 1];
        snake := snake[..|snake| - 1];
      }
    }

    /**
     * `keydown`: an arrow key or W/A/S/D in either case sets the pending
     * direction; the space key toggles pause.
     */
    method KeyDown(key: string)
      requires Valid() && LoopConsistent()
      modifies this`nextDir, this`paused
      ensures Valid() && LoopConsistent()
      ensures KeyIntent(key).Some? ==> nextDir == KeyIntent(key).value
      ensures KeyIntent(key).None? ==> nextDir == old(nextDir)
      ensures paused == (if IsPauseKey(key) then !old(paused) else old(paused))
    {
      var k := LowerStr(key);
      if k == "arrowleft" || k == "a" { nextDir := Left; }
      if k == "arrowright" || k == "d" { nextDir := Right; }
      if k == "arrowup" || k == "w" { nextDir := Up; }
      if k == "arrowdown" || k == "s" { nextDir := Down; }
      if key == " " || key == "Spacebar" {
        paused := !paused;
      }
    }

    /** `touchstart`: remember where the finger went down. */
    method TouchStart(x: int, y: int)
      modifies this`touchStartX, this`touchStartY
      ensures touchStartX == x && touchStartY == y
    {
      touchStartX := x;
      touchStartY := y;
    }

    /** `touchend`: a long enough swipe sets the pending direction. */
    method TouchEnd(x: int, y: int)
      requires Valid() && LoopConsistent()
      modifies this`nextDir
      ensures Valid() && LoopConsistent()
      ensures var swipe := SwipeIntent(x - touchStartX, y - touchStartY);
        nextDir == if swipe.Some? then swipe.value else old(nextDir)
    {
      var dx := x - touchStartX;
      var dy := y - touchStartY;
      if Abs(dx) > Abs(dy) {
        if dx > SwipeThreshold { nextDir := Right; }
        else if dx < -SwipeThreshold { nextDir := Left; }
      } else {
        if dy > SwipeThreshold { nextDir := Down; }
        else if dy < -SwipeThreshold { nextDir := Up; }
      }
    }

    /** An on-screen direction button overwrites the pending direction. */
    method PressDirection(d: Dir)
      requires Valid() && LoopConsistent()
      modifies this`nextDir
      ensures Valid() && LoopConsistent() && nextDir == d
    {
      nextDir := d;
    }

    /** The speed slider: a running game re-arms its timer at the new interval, keeping its state. */
    method SetSpeed(speed: int)
      requires Valid() && LoopConsistent()
      modifies this`tickSpeed, this`timer, this`armed, this`nextHandle
      ensures Valid() && LoopConsistent() && tickSpeed == speed
      ensures running ==> armed == map[timer.value := TickInterval(speed)]
      ensures !running ==> timer == old(timer) && armed == old(armed)
    {
      tickSpeed := speed;
      if running {
        StartLoop();
      }
    }

    /** The density slider: new geometry, then a reset that keeps a running game running. */
    method SetDensity(g: int, width: int, height: int, draws: seq<Cell>)
      requires Valid() && LoopConsistent()
      requires g >= 1 && width >= 1 && height >= 0 && |draws| > MaxTries
      modifies this`grid, this`cols, this`rows, this`cellPx
      modifies this`snake, this`dir, this`nextDir, this`food, this`score, this`paused
      modifies this`timer, this`armed, this`nextHandle
      ensures Valid() && LoopConsistent()
      ensures grid == g && Geometry(cols, rows, cellPx) == ComputeGeometry(g, width, height)
      ensures tickSpeed == old(tickSpeed) && running == old(running)
      ensures snake == [StartCell(cols, rows)] && dir == Right && nextDir == Right
      ensures food == SpawnedFood(draws, snake, old(food))
      ensures score == 0 && !paused
      ensures running ==> armed == map[timer.value := TickInterval(tickSpeed)]
      ensures !running ==> armed == map[]
    {
      grid := g;
      ResizeCanvas(width, height);
      ResetGame(false, draws);
    }

    /**
     * The start button: a stopped game reads both sliders, recomputes the
     * geometry, resets and starts; a running game is only unpaused.
     */
    method Start(speed: int, g: int, width: int, height: int, draws: seq<Cell>)
      requires Valid() && LoopConsistent()
      requires g >= 1 && width >= 1 && height >= 0 && |draws| > MaxTries
      modifies this`tickSpeed, this`grid, this`cols, this`rows, this`cellPx, this`running
      modifies this`snake, this`dir, this`nextDir, this`food, this`score, this`paused
      modifies this`timer, this`armed, this`nextHandle
      ensures Valid() && LoopConsistent() && running && !paused
      ensures !old(running) ==>
        && tickSpeed == speed && grid == g
        && Geometry(cols, rows, cellPx) == ComputeGeometry(g, width, height)
        && snake == [StartCell(cols, rows)] && dir == Right && nextDir == Right
        && food == SpawnedFood(draws, snake, old(food)) && score == 0
        && armed == map[timer.value := TickInterval(speed)]
      ensures old(running) ==>
        && Setup() == old(Setup())
        && snake == old(snake) && dir == old(dir) && nextDir == old(nextDir)
        && food == old(food) && score == old(score)
        && timer == old(timer) && armed == old(armed) && nextHandle == old(nextHandle)
    {
      if !running {
        tickSpeed := speed;
        grid := g;
        ResizeCanvas(width, height);
        running := true;
        ResetGame(false, draws);
        StartLoop();
      } else {
        paused := false;
      }
    }

    /** The pause button toggles pause, like the space key. */
    method TogglePause()
      requires Valid() && LoopConsistent()
      modifies this`paused
      ensures Valid() && LoopConsistent() && paused == !old(paused)
    {
      paused := !paused;
    }

    /**
     * The restart button and the game-over dialog's restart: a fresh running
     * game with the current settings (the sliders are not read again).
     */
    method Restart(width: int, height: int, draws: seq<Cell>)
      requires Valid() && LoopConsistent()
      requires width >= 1 && height >= 0 && |draws| > MaxTries
      modifies this`cols, this`rows, this`cellPx, this`running
      modifies this`snake, this`dir, this`nextDir, this`food, this`score, this`paused
      modifies this`timer, this`armed, this`nextHandle
      ensures Valid() && LoopConsistent() && running && !paused
      ensures grid == old(grid) && tickSpeed == old(tickSpeed)
      ensures Geometry(cols, rows, cellPx) == ComputeGeometry(grid, width, height)
      ensures snake == [StartCell(cols, rows)] && dir == Right && nextDir == Right
      ensures food == SpawnedFood(draws, snake, old(food)) && score == 0
      ensures armed == map[timer.value := TickInterval(tickSpeed)]
    {
      running := true;
      paused := false;
      Relaunch(width, height, draws);
    }

    /** The tail of a restart: `resizeCanvas`, `resetGame(false)` and `startLoop` on a running game. */
    method Relaunch(width: int, height: int, draws: seq<Cell>)
      requires Configured() && running
      requires width >= 1 && height >= 0 && |draws| > MaxTries
      modifies this`cols, this`rows, this`cellPx
      modifies this`snake, this`dir, this`nextDir, this`food, this`score, this`paused
      modifies this`timer, this`armed, this`nextHandle
      ensures Valid() && timer.Some? && !paused
      ensures Geometry(cols, rows, cellPx) == ComputeGeometry(grid, width, height)
      ensures snake == [StartCell(cols, rows)] && dir == Right && nextDir == Right
      ensures food == SpawnedFood(draws, snake, old(food)) && score == 0
      ensures armed == map[timer.value := TickInterval(tickSpeed)]
    {
      ResizeCanvas(width, height);
      ResetGame(false, draws);
      StartLoop();
    }

    /** A window resize recomputes the geometry but, unlike a density change, does not reset. */
    method WindowResize(width: int, height: int)
      requires Valid() && LoopConsistent()
      requires width >= 1 && height >= 0
      modifies this`cols, this`rows, this`cellPx
      ensures Valid() && LoopConsistent()
      ensures Geometry(cols, rows, cellPx) == ComputeGeometry(grid, width, height)
    {
      ResizeCanvas(width, height);
    }
  }
}
