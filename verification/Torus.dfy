/** The board of the snake game: cells, directions, the wrapping step of Snake::move and the
    decoders that recover directions from neighbouring cells (game_project/models). */
module Torus {

  const TWO32 := 0x1_0000_0000

  /** Difference of two unsigned 32-bit numbers. */
  function Sub32(a: nat, b: nat): nat {
    (a - b) % TWO32
  }

  /** The window size; both members are unsigned shorts. */
  datatype Size = Size(rows: nat, cols: nat)

  predicate Playable(sz: Size) {
    5 <= sz.rows < 0x1_0000 && 5 <= sz.cols < 0x1_0000
  }

  datatype Coord = Coord(first: nat, second: nat)

  datatype Dir = Def | Up | Down | Left | Right
  {
    /** The enumerator's value: opposite directions are each other's negation. */
    function Value(): int {
      match this
      case Def => 0
      case Up => 1
      case Down => -1
      case Left => 2
      case Right => -2
    }
  }

  predicate Opposite(d: Dir, e: Dir) {
    d.Value() == -e.Value()
  }

  function Reverse(d: Dir): Dir {
    match d
    case Def => Def
    case Up => Down
    case Down => Up
    case Left => Right
    case Right => Left
  }

  predicate OnBoard(sz: Size, c: Coord) {
    2 <= c.first < sz.rows && 2 <= c.second < sz.cols
  }

  // ----- one step on the board -----

  function Forth(x: nat, n: nat): nat
    requires n > 0
  {
    var y := (x + 1) % TWO32 % n;
    if y < 2 then 2 else y
  }

  function Back(x: nat, n: nat): int
    requires n > 0
  {
    var y := Sub32(x, 1) % n;
    if y < 2 then n - 1 else y
  }

  /** The new head of a snake that moves in a direction. */
  function Step(sz: Size, c: Coord, d: Dir): Coord
    requires sz.rows > 0 && sz.cols > 0
  {
    match d
    case Down => Coord(Forth(c.first, sz.rows), c.second)
    case Up => Coord(Back(c.first, sz.rows), c.second)
    case Left => Coord(c.first, Back(c.second, sz.cols))
    case Right => Coord(c.first, Forth(c.second, sz.cols))
    case Def => c
  }

  lemma AxisStep(x: nat, n: nat)
    requires 5 <= n < 0x1_0000 && 2 <= x < n
    ensures Forth(x, n) == if x == n - 1 then 2 else x + 1
    ensures Back(x, n) == if x == 2 then n - 1 else x - 1
  {
    SmallMod(x + 1, TWO32);
    SmallMod(x - 1, TWO32);
    SmallMod(x - 1, n);
    if x < n - 1 {
      SmallMod(x + 1, n);
    } else {
      assert (x + 1) % n == 0;
    }
  }

  lemma SmallMod(x: nat, n: nat)
    requires x < n
    ensures x % n == x
  {
  }

  /** On the board a step changes one coordinate by one, or wraps it from one edge to the other. */
  lemma StepIs(sz: Size, c: Coord, d: Dir)
    requires Playable(sz) && OnBoard(sz, c)
    ensures OnBoard(sz, Step(sz, c, d))
    ensures Step(sz, c, d) ==
            match d
            case Down => Coord(if c.first == sz.rows - 1 then 2 else c.first + 1, c.second)
            case Up => Coord(if c.first == 2 then sz.rows - 1 else c.first - 1, c.second)
            case Left => Coord(c.first, if c.second == 2 then sz.cols - 1 else c.second - 1)
            case Right => Coord(c.first, if c.second == sz.cols - 1 then 2 else c.second + 1)
            case Def => c
  {
    AxisStep(c.first, sz.rows);
    AxisStep(c.second, sz.cols);
  }

  /** Different directions lead to different cells, none of them the starting cell. */
  lemma StepInjective(sz: Size, c: Coord, d: Dir, e: Dir)
    requires Playable(sz) && OnBoard(sz, c)
    ensures Step(sz, c, d) == Step(sz, c, e) <==> d == e
  {
    StepIs(sz, c, d);
    StepIs(sz, c, e);
  }

  /** Two steps lead back exactly when the second is the opposite of the first. */
  lemma StepBack(sz: Size, c: Coord, d: Dir, e: Dir)
    requires Playable(sz) && OnBoard(sz, c)
    ensures Step(sz, Step(sz, c, d), e) == c <==> Opposite(d, e)
  {
    StepIs(sz, c, d);
    StepIs(sz, Step(sz, c, d), e);
  }

  // ----- the decoders -----

  /** The tests of getTailDir and getBodyDir on one axis: does `to` lie one forth of `from`? */
  predicate IsForth(from: nat, to: nat, n: int) {
    Sub32(to, from) == 1 || Sub32(from, to) == n
  }

  /** Snake::getTailDir on the two last cells. */
  function TailDir(sz: Size, tailPrev: Coord, tail: Coord): Dir {
    var n, m := sz.rows - 3, sz.cols - 3;
    if IsForth(tail.first, tailPrev.first, n) then Down
    else if IsForth(tailPrev.first, tail.first, n) then Up
    else if IsForth(tail.second, tailPrev.second, m) then Right
    else if IsForth(tailPrev.second, tail.second, m) then Left
    else Def
  }

  /** One half of Snake::getBodyDir: the column tests come last and win. */
  function Towards(sz: Size, c: Coord, other: Coord): Dir {
    var n, m := sz.rows - 3, sz.cols - 3;
    var d := if IsForth(c.first, other.first, n) then Down
             else if IsForth(other.first, c.first, n) then Up
             else Def;
    if IsForth(c.second, other.second, m) then Right
    else if IsForth(other.second, c.second, m) then Left
    else d
  }

  /** Snake::getBodyDir on an inner cell and its neighbours: (forward, backward). */
  function BodyDir(sz: Size, prev: Coord, c: Coord, next: Coord): (Dir, Dir) {
    (Towards(sz, c, next), Towards(sz, c, prev))
  }

  lemma AxisDecodes(x: nat, y: nat, n: nat)
    requires 5 <= n < 0x1_0000 && 2 <= x < n && 2 <= y < n
    ensures IsForth(x, y, n - 3) <==> y == Forth(x, n)
    ensures IsForth(y, x, n - 3) <==> y == Back(x, n)
  {
    AxisStep(x, n);
    SubIs(x, y);
    SubIs(y, x);
  }

  lemma SubIs(a: nat, b: nat)
    requires a < 0x1_0000 && b < 0x1_0000
    ensures Sub32(a, b) == if a >= b then a - b else a - b + TWO32
  {
  }

  /** Decoding inverts moving, across the wrap as well: getTailDir returns the direction of the
      move that led from the tail to the cell before it. */
  lemma TailDirInverts(sz: Size, tail: Coord, d: Dir)
    requires Playable(sz) && OnBoard(sz, tail)
    ensures TailDir(sz, Step(sz, tail, d), tail) == d
  {
    var to := Step(sz, tail, d);
    StepIs(sz, tail, d);
    AxisStep(tail.first, sz.rows);
    AxisStep(tail.second, sz.cols);
    AxisDecodes(tail.first, to.first, sz.rows);
    AxisDecodes(tail.second, to.second, sz.cols);
  }

  lemma TowardsInverts(sz: Size, c: Coord, d: Dir)
    requires Playable(sz) && OnBoard(sz, c)
    ensures Towards(sz, c, Step(sz, c, d)) == d
  {
    var to := Step(sz, c, d);
    StepIs(sz, c, d);
    AxisStep(c.first, sz.rows);
    AxisStep(c.second, sz.cols);
    AxisDecodes(c.first, to.first, sz.rows);
    AxisDecodes(c.second, to.second, sz.cols);
  }
}
