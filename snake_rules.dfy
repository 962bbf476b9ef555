/**
 * The pure pieces of the snake engine in static/snake.js: directions and
 * the reverse-direction rule, the one-cell move with toroidal wraparound,
 * the board geometry, the tick interval, food placement by rejection
 * sampling, and the mapping from key presses and swipes to a direction.
 */
module SnakeRules {
  import opened Wrappers
  import opened Text

  datatype Dir = Up | Down | Left | Right

  /** A board cell; `x` counts columns from the left, `y` rows from the top. */
  datatype Cell = Cell(x: int, y: int)

  /** Board geometry derived from the canvas size and the density setting. */
  datatype Geometry = Geometry(cols: int, rows: int, cellPx: int)

  /** Minimum number of rows, whatever the aspect ratio. */
  const MinRows := 10
  /** `spawnFood` gives up once its counter passes this many rejected draws. */
  const MaxTries := 2000
  /** Shortest tick interval in milliseconds. */
  const MinInterval := 20
  /** A swipe must move strictly more than this many pixels along its axis. */
  const SwipeThreshold := 20

  function Opposite(d: Dir): Dir {
    match d
    case Up => Down
    case Down => Up
    case Left => Right
    case Right => Left
  }

  /** The four pairs the source tests before adopting the pending direction. */
  predicate IsReversal(cur: Dir, pending: Dir) {
    (cur == Left && pending == Right) || (cur == Right && pending == Left) ||
    (cur == Up && pending == Down) || (cur == Down && pending == Up)
  }

  /**
   * The direction a tick applies: the pending one, unless it is the exact
   * reverse of the current one, which is ignored.
   */
  function ResolveDir(cur: Dir, pending: Dir): (r: Dir)
    ensures r != Opposite(cur)
    ensures pending != Opposite(cur) ==> r == pending
    ensures pending == Opposite(cur) ==> r == cur
  {
    if IsReversal(cur, pending) then cur else pending
  }

  function DX(d: Dir): int {
    match d
    case Left => -1
    case Right => 1
    case _ => 0
  }

  function DY(d: Dir): int {
    match d
    case Up => -1
    case Down => 1
    case _ => 0
  }

  /**
   * The source's two wraparound tests on one axis of size `n`: below zero
   * becomes `n - 1`, then `n` or more becomes zero.
   */
  function Wrap(v: int, n: int): (r: int)
    requires n >= 1
    ensures 0 <= r < n
    ensures -1 <= v <= n ==> r == v % n
  {
    var a := if v < 0 then n - 1 else v;
    if a >= n then 0 else a
  }

  predicate InBoard(c: Cell, cols: int, rows: int) {
    0 <= c.x < cols && 0 <= c.y < rows
  }

  predicate AllInBoard(s: seq<Cell>, cols: int, rows: int) {
    forall i :: 0 <= i < |s| ==> InBoard(s[i], cols, rows)
  }

  predicate Distinct(s: seq<Cell>) {
    forall i, j :: 0 <= i < j < |s| ==> s[i] != s[j]
  }

  /**
   * The new head: one cell from `head` along `d`, wrapped. It is always on
   * the board, and from a cell on the board it is the neighbour on the torus.
   */
  function NextHead(head: Cell, d: Dir, cols: int, rows: int): (r: Cell)
    requires cols >= 1 && rows >= 1
    ensures InBoard(r, cols, rows)
    ensures InBoard(head, cols, rows) ==>
      r == Cell((head.x + DX(d)) % cols, (head.y + DY(d)) % rows)
  {
    Cell(Wrap(head.x + DX(d), cols), Wrap(head.y + DY(d), rows))
  }

  /** Wrapping on each edge of the board, in both directions of each axis. */
  lemma WrapAtEdges(head: Cell, cols: int, rows: int)
    requires cols >= 1 && rows >= 1 && InBoard(head, cols, rows)
    ensures head.x == cols - 1 ==> NextHead(head, Right, cols, rows) == Cell(0, head.y)
    ensures head.x == 0 ==> NextHead(head, Left, cols, rows) == Cell(cols - 1, head.y)
    ensures head.y == rows - 1 ==> NextHead(head, Down, cols, rows) == Cell(head.x, 0)
    ensures head.y == 0 ==> NextHead(head, Up, cols, rows) == Cell(head.x, rows - 1)
  {
  }

  /**
   * Adding a new head that is not in the body, and then possibly dropping
   * the tail, keeps the cells pairwise distinct and on the board.
   */
  lemma {:induction false} MoveKeepsBodyValid(body: seq<Cell>, head: Cell, cols: int, rows: int)
    requires |body| >= 1 && Distinct(body) && AllInBoard(body, cols, rows)
    requires InBoard(head, cols, rows) && head !in body
    ensures Distinct([head] + body) && AllInBoard([head] + body, cols, rows)
    ensures Distinct([head] + body[..|body| - 1]) && AllInBoard([head] + body[..|body| - 1], cols, rows)
  {
    MoveKeepsDistinct(body, head);
    var grown := [head] + body;
    assert [head] + body[..|body| - 1] == grown[..|grown| - 1];
  }

  /** Adding a new head that is not in the body, and then possibly dropping the tail, keeps the cells distinct. */
  lemma {:induction false} MoveKeepsDistinct(body: seq<Cell>, head: Cell)
    requires |body| >= 1 && Distinct(body) && head !in body
    ensures Distinct([head] + body) && Distinct([head] + body[..|body| - 1])
  {
    var grown := [head] + body;
    forall i, j | 0 <= i < j < |grown| ensures grown[i] != grown[j] {
      if i == 0 {
        assert grown[j] == body[j - 1];
      } else {
        assert grown[i] == body[i - 1] && grown[j] == body[j - 1];
      }
    }
    assert [head] + body[..|body| - 1] == grown[..|grown| - 1];
  }

  /**
   * `resizeCanvas`: `cols` is the density, `rows` the floor of
   * `height / width * cols` raised to at least ten, and `cellPx` the
   * floor of `width / cols`.
   */
  function ComputeGeometry(grid: int, width: int, height: int): (g: Geometry)
    requires grid >= 1 && width >= 1 && height >= 0
    ensures g.cols == grid && g.rows >= MinRows && g.cellPx >= 0
    ensures g.rows == MinRows || g.rows * width <= height * grid < (g.rows + 1) * width
    ensures height * grid >= MinRows * width ==> g.rows * width <= height * grid < (g.rows + 1) * width
    ensures g.cellPx * grid <= width < (g.cellPx + 1) * grid
  {
    var q := height * grid / width;
    FloorDivBounds(height * grid, width);
    FloorDivBounds(width, grid);
    if q < MinRows then
      MulMonotone(q + 1, MinRows, width);
      Geometry(grid, MinRows, width / grid)
    else
      Geometry(grid, q, width / grid)
  }

  /** Floor division brackets its dividend between two consecutive multiples of the divisor. */
  lemma FloorDivBounds(a: int, b: int)
    requires a >= 0 && b >= 1
    ensures a / b >= 0 && (a / b) * b <= a < (a / b + 1) * b
  {
  }

  lemma MulMonotone(a: int, b: int, c: int)
    requires a <= b && c >= 0
    ensures a * c <= b * c
  {
  }

  /** The cell a fresh one-cell snake starts on. */
  function StartCell(cols: int, rows: int): (c: Cell)
    requires cols >= 1 && rows >= 1
    ensures InBoard(c, cols, rows)
  {
    Cell(cols / 3, rows / 2)
  }

  /**
   * `startLoop`'s interval in milliseconds: 300 less 12 per speed step,
   * never below 20.
   */
  function TickInterval(tickSpeed: int): (ms: int)
    ensures ms >= MinInterval && ms >= 300 - 12 * tickSpeed
    ensures ms == MinInterval || ms == 300 - 12 * tickSpeed
  {
    var raw := 300 - tickSpeed * 12;
    if raw > MinInterval then raw else MinInterval
  }

  /** A faster speed setting never gives a longer interval. */
  lemma TickIntervalMonotone(slow: int, fast: int)
    requires slow <= fast
    ensures TickInterval(fast) <= TickInterval(slow)
  {
  }

  /** Index of the first of `draws` that is not a body cell, or None when every one of them is. */
  function FirstFree(draws: seq<Cell>, body: seq<Cell>): (r: Option<nat>)
    ensures r.Some? ==>
      && r.value < |draws| && draws[r.value] !in body
      && forall j :: 0 <= j < r.value ==> draws[j] in body
    ensures r.None? ==> forall j :: 0 <= j < |draws| ==> draws[j] in body
  {
    if draws == [] then None
    else if draws[0] !in body then Some(0)
    else match FirstFree(draws[1..], body)
      case Some(i) => Some(i + 1)
      case None => None
  }

  /** Some cell among the first MaxTries + 1 random draws is free of the body. */
  predicate SpawnSucceeds(draws: seq<Cell>, body: seq<Cell>)
    requires |draws| > MaxTries
  {
    exists k :: 0 <= k <= MaxTries && draws[k] !in body
  }

  /**
   * What `spawnFood` leaves in `food`: the first of the first MaxTries + 1
   * random cells that the body does not occupy, or the previous food when
   * all of them are occupied.
   */
  function SpawnedFood(draws: seq<Cell>, body: seq<Cell>, previous: Option<Cell>): Option<Cell>
    requires |draws| > MaxTries
  {
    match FirstFree(draws[..MaxTries + 1], body)
    case Some(k) => Some(draws[k])
    case None => previous
  }

  /**
   * `spawnFood` succeeds exactly when one of the first MaxTries + 1 draws is
   * free, and then places the food on the first free draw; otherwise the
   * previous food stays.
   */
  lemma SpawnedFoodSpec(draws: seq<Cell>, body: seq<Cell>, previous: Option<Cell>)
    requires |draws| > MaxTries
    ensures var food := SpawnedFood(draws, body, previous);
      SpawnSucceeds(draws, body) ==>
        && food.Some? && food.value !in body
        && exists k :: 0 <= k <= MaxTries && food.value == draws[k] && forall j :: 0 <= j < k ==> draws[j] in body
    ensures !SpawnSucceeds(draws, body) ==> SpawnedFood(draws, body, previous) == previous
  {
    var tried := draws[..MaxTries + 1];
    match FirstFree(tried, body)
    case Some(k) =>
      assert tried[k] == draws[k];
      assert forall j :: 0 <= j < k ==> tried[j] == draws[j];
    case None =>
      assert forall j :: 0 <= j <= MaxTries ==> tried[j] == draws[j];
  }

  /** Food placed from on-board draws is on the board and off the snake. */
  lemma SpawnedFoodPlacement(draws: seq<Cell>, body: seq<Cell>, previous: Option<Cell>, cols: int, rows: int)
    requires |draws| > MaxTries && AllInBoard(draws, cols, rows)
    requires SpawnSucceeds(draws, body)
    ensures SpawnedFood(draws, body, previous).Some?
    ensures InBoard(SpawnedFood(draws, body, previous).value, cols, rows)
    ensures SpawnedFood(draws, body, previous).value !in body
  {
    SpawnedFoodSpec(draws, body, previous);
  }

  /** `keydown`: arrow keys or WASD, compared after lower-casing the key name. */
  function KeyIntent(key: string): Option<Dir> {
    var k := LowerStr(key);
    if k == "arrowleft" || k == "a" then Some(Left)
    else if k == "arrowright" || k == "d" then Some(Right)
    else if k == "arrowup" || k == "w" then Some(Up)
    else if k == "arrowdown" || k == "s" then Some(Down)
    else None
  }

  /** Key recognition ignores letter case: a key and its lower-cased name map alike. */
  lemma KeyIntentIgnoresCase(key: string)
    ensures KeyIntent(LowerStr(key)) == KeyIntent(key)
  {
    LowerStrIdempotent(key);
  }

  /** The pause toggle compares the raw key, without lower-casing. */
  predicate IsPauseKey(key: string) {
    key == " " || key == "Spacebar"
  }

  function Abs(v: int): nat {
    if v < 0 then -v else v
  }

  /**
   * `touchend`: the axis with the larger displacement wins (a tie goes to the
   * vertical axis), and the displacement along it must exceed 20 pixels.
   */
  function SwipeIntent(dx: int, dy: int): (r: Option<Dir>)
    ensures r.None? <==> Abs(dx) <= SwipeThreshold && Abs(dy) <= SwipeThreshold
    ensures r == Some(Right) ==> dx > SwipeThreshold && Abs(dx) > Abs(dy)
    ensures r == Some(Left) ==> dx < -SwipeThreshold && Abs(dx) > Abs(dy)
    ensures r == Some(Down) ==> dy > SwipeThreshold && Abs(dy) >= Abs(dx)
    ensures r == Some(Up) ==> dy < -SwipeThreshold && Abs(dy) >= Abs(dx)
  {
    if Abs(dx) > Abs(dy) then
      if dx > SwipeThreshold then Some(Right)
      else if dx < -SwipeThreshold then Some(Left)
      else None
    else
      if dy > SwipeThreshold then Some(Down)
      else if dy < -SwipeThreshold then Some(Up)
      else None
  }
}
