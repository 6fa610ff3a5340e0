/** The computer player: the matrix snapshot of the board, its neighbour functions, and the
    choice of a direction (AI::update's target and AI::calcNextStep). */
module Ai {
  import opened Torus
  import opened Snakes

  const TWO64 := 0x1_0000_0000_0000_0000

  const R := 1
  const S := 2

  /** The flat index of row x, column y of a matrix with n columns. */
  function Flat(x: nat, y: nat, n: nat): nat {
    x * n + y
  }

  lemma TimesMono(a: nat, b: nat, n: nat)
    requires a <= b
    ensures a * n <= b * n
  {
    assert b * n == a * n + (b - a) * n;
  }

  lemma FlatInside(x: nat, y: nat, m: nat, n: nat)
    requires x < m && y < n
    ensures Flat(x, y, n) < m * n
  {
    TimesMono(x + 1, m, n);
    assert (x + 1) * n == x * n + n;
  }

  /** Different cells have different flat indices. */
  lemma FlatInjective(x: nat, y: nat, x': nat, y': nat, n: nat)
    requires y < n && y' < n
    ensures Flat(x, y, n) == Flat(x', y', n) <==> x == x' && y == y'
  {
    if x < x' {
      FlatInside(x, y, x', n);
    } else if x' < x {
      FlatInside(x', y', x, n);
    }
  }

  /** Matrix<int>: a flat buffer of m rows and n columns. */
  class Matrix {
    const m: nat
    const n: nat
    const buf: array<int>

    predicate Valid() {
      m > 0 && n > 0 && buf.Length == m * n
    }

    constructor (m: nat, n: nat)
      requires m > 0 && n > 0
      ensures Valid() && this.m == m && this.n == n && fresh(buf)
      ensures forall x, y :: 0 <= x < m && 0 <= y < n ==> At(x, y) == 0
    {
      this.m, this.n := m, n;
      buf := new int[m * n](_ => 0);
      new;
      forall x, y | 0 <= x < m && 0 <= y < n ensures At(x, y) == 0 {
        FlatInside(x, y, m, n);
      }
    }

    function At(x: nat, y: nat): int
      requires Valid() && x < m && y < n
      reads buf
    {
      FlatInside(x, y, m, n);
      buf[Flat(x, y, n)]
    }

    /** Writing through operator() changes that cell and no other. */
    method Set(x: nat, y: nat, v: int)
      requires Valid() && x < m && y < n
      modifies buf
      ensures forall x', y' :: 0 <= x' < m && 0 <= y' < n ==>
                At(x', y') == if x' == x && y' == y then v else old(At(x', y'))
    {
      FlatInside(x, y, m, n);
      ghost var before := buf[..];
      buf[x * n + y] := v;
      forall x', y' | 0 <= x' < m && 0 <= y' < n
        ensures At(x', y') == if x' == x && y' == y then v else old(At(x', y'))
      {
        FlatInside(x', y', m, n);
        FlatInjective(x, y, x', y', n);
      }
    }

    // Reading through the neighbour functions; outside the matrix they give a fresh zero.

    function UpTo(x: nat, y: nat): int
      requires Valid()
      reads buf
    {
      if x > m - 1 || y > n - 1 then 0
      else if x != 0 then FlatInside(x - 1, y, m, n); buf[(x - 1) * n + y]
      else FlatInside(m - 1, y, m, n); buf[(m - 1) * n + y]
    }

    function DownTo(x: nat, y: nat): int
      requires Valid()
      reads buf
    {
      if x > m - 1 || y > n - 1 then 0
      else if x == m - 1 then FlatInside(0, y, m, n); buf[y]
      else FlatInside(x + 1, y, m, n); buf[(x + 1) * n + y]
    }

    function LeftTo(x: nat, y: nat): int
      requires Valid()
      reads buf
    {
      if x > m - 1 || y > n - 1 then 0
      else if y != 0 then FlatInside(x, y - 1, m, n); buf[x * n + y - 1]
      else FlatInside(x, n - 1, m, n); buf[x * n + n - 1]
    }

    function RightTo(x: nat, y: nat): int
      requires Valid()
      reads buf
    {
      if x > m - 1 || y > n - 1 then 0
      else if y != n - 1 then FlatInside(x, y + 1, m, n); buf[x * n + y + 1]
      else FlatInside(x, 0, m, n); buf[x * n]
    }
  }

  // ----- the snapshot -----

  /** The mark of a matrix cell in a snapshot of w: rabbits are written after snakes. */
  ghost function Mark(w: World, x: nat, y: nat): int {
    if Coord(x + 2, y + 2) in w.rabbits then R
    else if Covered(w.snakes, Coord(x + 2, y + 2)) then S
    else 0
  }

  ghost predicate Shows(field: Matrix, w: World)
    reads field.buf
  {
    && field.Valid() && field.m == w.sz.rows - 1 && field.n == w.sz.cols - 1
    && forall x, y :: 0 <= x < field.m && 0 <= y < field.n ==> field.At(x, y) == Mark(w, x, y)
  }

  function Look(field: Matrix, head: Coord, d: Dir): int
    requires field.Valid() && head.first >= 2 && head.second >= 2
    reads field.buf
  {
    var x, y := head.first - 2, head.second - 2;
    match d
    case Up => field.UpTo(x, y)
    case Down => field.DownTo(x, y)
    case Left => field.LeftTo(x, y)
    case Right => field.RightTo(x, y)
    case Def => 0
  }

  /** Whether a step leaves the board on one side and comes back on the other. */
  predicate Wraps(sz: Size, c: Coord, d: Dir) {
    match d
    case Up => c.first == 2
    case Down => c.first == sz.rows - 1
    case Left => c.second == 2
    case Right => c.second == sz.cols - 1
    case Def => false
  }

  predicate OffBorder(sz: Size, c: Coord) {
    2 < c.first < sz.rows - 1 && 2 < c.second < sz.cols - 1
  }

  /** Matrix cells that lie on no board cell are never marked; on the board the mark S means
      covered, because no rabbit overwrites it. */
  lemma MarkIs(w: World, x: nat, y: nat)
    requires WorldOk(w)
    ensures x + 2 >= w.sz.rows || y + 2 >= w.sz.cols ==> Mark(w, x, y) == 0
    ensures Mark(w, x, y) == S <==> Covered(w.snakes, Coord(x + 2, y + 2))
  {
  }

  /** What the neighbour functions report, exactly: a neighbour is marked S if and only if the
      step does not wrap and a snake covers the cell it leads to. A cell across the border is
      never seen, because the matrix has a row and a column more than the board. */
  lemma LookIsExact(field: Matrix, w: World, head: Coord, d: Dir)
    requires WorldOk(w) && Shows(field, w) && OnBoard(w.sz, head) && d != Def
    ensures Look(field, head, d) == S <==>
            !Wraps(w.sz, head, d) && Covered(w.snakes, Step(w.sz, head, d))
  {
    var x, y := head.first - 2, head.second - 2;
    var m, n := field.m, field.n;
    StepIs(w.sz, head, d);
    if Wraps(w.sz, head, d) {
      match d
      case Up => MarkIs(w, m - 1, y); assert Look(field, head, d) == field.At(m - 1, y);
      case Down => MarkIs(w, x + 1, y); assert Look(field, head, d) == field.At(x + 1, y);
      case Left => MarkIs(w, x, n - 1); assert Look(field, head, d) == field.At(x, n - 1);
      case Right => MarkIs(w, x, y + 1); assert Look(field, head, d) == field.At(x, y + 1);
    } else {
      var c := Step(w.sz, head, d);
      MarkIs(w, c.first - 2, c.second - 2);
      assert Look(field, head, d) == field.At(c.first - 2, c.second - 2);
    }
  }

  // ----- choosing a direction -----

  function Half(n: nat): nat { n / 2 }

  /** The row direction put into next_step, Def if none. Differences are unsigned. */
  function PreferRow(x: nat, head: nat, n: nat): Dir {
    if x < head then (if Sub32(x, head) > Half(n) then Up else Down)
    else if Sub32(head, x) > Half(n) then Down
    else if head != x then Up
    else Def
  }

  function PreferCol(y: nat, head: nat, m: nat): Dir {
    if y < head then (if Sub32(y, head) > Half(m) then Left else Right)
    else if Sub32(head, y) > Half(m) then Right
    else if head != y then Left
    else Def
  }

  function Preferred(target: Coord, head: Coord, m: nat, n: nat): seq<Dir> {
    var row, col := PreferRow(target.first, head.first, n), PreferCol(target.second, head.second, m);
    (if row == Def then [] else [row]) + (if col == Def then [] else [col])
  }

  /** With 16-bit window sizes the wrapped differences are always large: the preference is the
      straight way to the target, never the way across the border. */
  lemma PreferenceIsStraight(target: Coord, head: Coord, m: nat, n: nat)
    requires target.first < 0x1_0000 && target.second < 0x1_0000
    requires head.first < 0x1_0000 && head.second < 0x1_0000
    requires m < 0x1_0000 && n < 0x1_0000
    ensures PreferRow(target.first, head.first, n) ==
            if target.first < head.first then Up else if target.first > head.first then Down else Def
    ensures PreferCol(target.second, head.second, m) ==
            if target.second < head.second then Left else if target.second > head.second then Right else Def
  {
    SubIs(target.first, head.first);
    SubIs(head.first, target.first);
    SubIs(target.second, head.second);
    SubIs(head.second, target.second);
  }

  /** The permissions by direction, read off the four neighbours. */
  datatype Permits = Permits(up: bool, down: bool, left: bool, right: bool) {
    predicate Allows(d: Dir) {
      match d
      case Up => up
      case Down => down
      case Left => left
      case Right => right
      case Def => false
    }
  }

  /** The permissions that the field gives at a head. */
  ghost predicate ReadsOff(field: Matrix, head: Coord, p: Permits)
    requires field.Valid() && head.first >= 2 && head.second >= 2
    reads field.buf
  {
    forall e :: p.Allows(e) <==> e != Def && Look(field, head, e) != S
  }

  /** The keys of dirs_perm in iteration order: by the values of the enumerators. */
  const MAP_ORDER: seq<Dir> := [Right, Down, Up, Left]

  function FirstAllowed(dirs: seq<Dir>, p: Permits): Dir {
    if dirs == [] then Def else if p.Allows(dirs[0]) then dirs[0] else FirstAllowed(dirs[1..], p)
  }

  /** The direction for a target: a preferred one if allowed, else any allowed one, else Def. */
  function Choice(preferred: seq<Dir>, p: Permits): Dir {
    var d := FirstAllowed(preferred, p);
    if d != Def then d else FirstAllowed(MAP_ORDER, p)
  }

  lemma {:induction false} FirstAllowedIs(dirs: seq<Dir>, p: Permits)
    ensures var d := FirstAllowed(dirs, p);
            (d != Def ==> d in dirs && p.Allows(d)) && (d == Def <==> forall e :: e in dirs ==> !p.Allows(e))
  {
    if dirs != [] {
      FirstAllowedIs(dirs[1..], p);
      assert dirs == [dirs[0]] + dirs[1..];
    }
  }

  /** The choice is allowed if anything is, and preferred if anything preferred is allowed. */
  lemma ChoiceIs(preferred: seq<Dir>, p: Permits)
    ensures var d := Choice(preferred, p);
            && (d != Def ==> p.Allows(d))
            && (d == Def ==> forall e :: !p.Allows(e))
            && (forall e :: e in preferred && p.Allows(e) ==> d in preferred)
  {
    FirstAllowedIs(preferred, p);
    FirstAllowedIs(MAP_ORDER, p);
    assert Up in MAP_ORDER && Down in MAP_ORDER && Left in MAP_ORDER && Right in MAP_ORDER;
  }

  // ----- the target -----

  function Sub64(a: int, b: int): nat {
    (a - b) % TWO64
  }

  /** The distance on one axis as the loop computes it, in size_t. */
  function AxisDist(r: nat, head: nat, n: nat, half: nat): nat {
    if r > head then (if r - head > half then (Sub64(n, r) + head) % TWO64 else r - head)
    else if head - r > half then (Sub64(n, head) + r) % TWO64 else head - r
  }

  /** The metric by which rabbits are ranked; it uses n for both axes. */
  function Metric(r: Coord, head: Coord, m: nat, n: nat): nat {
    (AxisDist(r.first, head.first, n, Half(n)) + AxisDist(r.second, head.second, n, Half(m))) % TWO64
  }

  /** The target is the first rabbit of least metric; the default cell (0, 0) stays if no rabbit
      has a metric below the largest size_t. */
  ghost predicate IsTarget(rabbits: seq<Coord>, head: Coord, m: nat, n: nat, target: Coord, least: nat) {
    if least == TWO64 - 1 then
      target == Coord(0, 0) && forall k :: 0 <= k < |rabbits| ==> Metric(rabbits[k], head, m, n) >= least
    else
      && (forall k :: 0 <= k < |rabbits| ==> Metric(rabbits[k], head, m, n) >= least)
      && (exists k :: FirstWith(rabbits, head, m, n, least, target, k))
  }

  ghost predicate FirstWith(rabbits: seq<Coord>, head: Coord, m: nat, n: nat, least: nat, r: Coord, k: nat) {
    && k < |rabbits| && r == rabbits[k] && Metric(r, head, m, n) == least
    && (forall j :: 0 <= j < k ==> Metric(rabbits[j], head, m, n) > least)
  }

  ghost predicate IsNearest(rabbits: seq<Coord>, head: Coord, m: nat, n: nat, target: Coord) {
    exists least :: IsTarget(rabbits, head, m, n, target, least)
  }

  /** A rabbit that is nearer than all others is the target. */
  lemma NearestIs(rabbits: seq<Coord>, head: Coord, m: nat, n: nat, k: nat, target: Coord)
    requires k < |rabbits| && Metric(rabbits[k], head, m, n) < TWO64 - 1
    requires forall j :: 0 <= j < |rabbits| && j != k ==>
               Metric(rabbits[j], head, m, n) > Metric(rabbits[k], head, m, n)
    ensures IsNearest(rabbits, head, m, n, target) <==> target == rabbits[k]
  {
    var least := Metric(rabbits[k], head, m, n);
    assert FirstWith(rabbits, head, m, n, least, rabbits[k], k);
    assert IsTarget(rabbits, head, m, n, rabbits[k], least);
    forall t, x | IsTarget(rabbits, head, m, n, t, x) ensures t == rabbits[k] {
      assert x != TWO64 - 1;
      var j :| FirstWith(rabbits, head, m, n, x, t, j);
    }
  }

  /** The first loop of calcNextStep: the rabbit of least metric. */
  method FindTarget(rabbits: seq<Coord>, head: Coord, m: nat, n: nat)
    returns (nearest: Coord, minDist: nat)
    ensures IsTarget(rabbits, head, m, n, nearest, minDist)
  {
    nearest := Coord(0, 0);
    minDist := TWO64 - 1;
    ghost var k := 0;
    for i := 0 to |rabbits|
      invariant minDist < TWO64
      invariant forall j :: 0 <= j < i ==> Metric(rabbits[j], head, m, n) >= minDist
      invariant minDist == TWO64 - 1 ==> nearest == Coord(0, 0)
      invariant minDist < TWO64 - 1 ==> FirstWith(rabbits[..i], head, m, n, minDist, nearest, k)
    {
      var dist := Metric(rabbits[i], head, m, n);
      if dist < minDist {
        minDist := dist;
        nearest := rabbits[i];
        k := i;
      }
    }
    assert rabbits[..|rabbits|] == rabbits;
  }

  lemma Sub64Is(n: nat, a: nat, b: nat)
    requires n < 0x1_0000 && a < 0x1_0000 && b < 0x1_0000
    ensures 0 <= n - a + b ==> (Sub64(n, a) + b) % TWO64 == n - a + b
    ensures n - a + b < 0 ==> (Sub64(n, a) + b) % TWO64 == n - a + b + TWO64
  {
  }

  function Apartness(a: nat, b: nat): nat {
    if a < b then b - a else a - b
  }

  /** What the columns add to the metric: the way across the border if they are far apart. */
  function Sideways(sz: Size, r: Coord, head: Coord): nat
    requires OnBoard(sz, r) && OnBoard(sz, head)
  {
    var dc := Apartness(r.second, head.second);
    if dc > Half(sz.rows - 1) then sz.cols - 1 - dc else dc
  }

  /** What the rows add: the way across the border of a board that has as many rows as columns,
      if they are further apart than half of that. It can be negative. */
  function Lengthways(sz: Size, r: Coord, head: Coord): int
    requires OnBoard(sz, r) && OnBoard(sz, head)
  {
    var dr := Apartness(r.first, head.first);
    if dr > Half(sz.cols - 1) then sz.cols - 1 - dr else dr
  }

  /** A rabbit that the ranking cannot see: so many rows away that the unsigned metric wraps to
      the largest size_t. */
  predicate Lost(sz: Size, r: Coord, head: Coord)
    requires OnBoard(sz, r) && OnBoard(sz, head)
  {
    Apartness(r.first, head.first) == sz.cols + Sideways(sz, r, head)
  }

  /** The distance on one axis, in unbounded integers, is n minus the difference or the
      difference; the machine's value is that, wrapped. */
  lemma AxisDistIs(r: nat, head: nat, n: nat, half: nat)
    requires r < 0x1_0000 && head < 0x1_0000 && n < 0x1_0000
    ensures var d := Apartness(r, head);
            var x := if d > half then n - d else d;
            AxisDist(r, head, n, half) == if x >= 0 then x else x + TWO64
  {
    Sub64Is(n, r, head);
    Sub64Is(n, head, r);
  }

  lemma SumWraps(x: int, y: nat)
    requires -0x1_0000 < x < 0x1_0000 && y < 0x1_0000
    ensures ((if x >= 0 then x else x + TWO64) + y) % TWO64 == if x + y >= 0 then x + y else x + y + TWO64
  {
  }

  lemma MetricValue(sz: Size, r: Coord, head: Coord)
    requires Playable(sz) && OnBoard(sz, r) && OnBoard(sz, head)
    ensures var x := Lengthways(sz, r, head) + Sideways(sz, r, head);
            Metric(r, head, sz.rows - 1, sz.cols - 1) == if x >= 0 then x else x + TWO64
  {
    var n := sz.cols - 1;
    AxisDistIs(r.first, head.first, n, Half(n));
    AxisDistIs(r.second, head.second, n, Half(sz.rows - 1));
    SumWraps(Lengthways(sz, r, head), Sideways(sz, r, head));
  }

  /** The metric is what rows and columns add, wrapped if it is negative; it is the largest size_t
      exactly for lost rabbits. */
  lemma MetricIs(sz: Size, r: Coord, head: Coord)
    requires Playable(sz) && OnBoard(sz, r) && OnBoard(sz, head)
    ensures var x := Lengthways(sz, r, head) + Sideways(sz, r, head);
            Metric(r, head, sz.rows - 1, sz.cols - 1) == if x >= 0 then x else x + TWO64
    ensures Metric(r, head, sz.rows - 1, sz.cols - 1) <= TWO64 - 1
    ensures Metric(r, head, sz.rows - 1, sz.cols - 1) == TWO64 - 1 <==> Lost(sz, r, head)
  {
    MetricValue(sz, r, head);
  }

  /** Exactly when the target is one of the rabbits: some rabbit is not lost. Otherwise it is
      the default cell, which is not on the board. */
  lemma TargetIsListed(sz: Size, rabbits: seq<Coord>, head: Coord, target: Coord)
    requires Playable(sz) && OnBoard(sz, head)
    requires forall k :: 0 <= k < |rabbits| ==> OnBoard(sz, rabbits[k])
    requires IsNearest(rabbits, head, sz.rows - 1, sz.cols - 1, target)
    ensures target in rabbits <==> exists k :: 0 <= k < |rabbits| && !Lost(sz, rabbits[k], head)
    ensures target !in rabbits ==> target == Coord(0, 0)
    ensures Aimed(sz, target)
  {
    forall k | 0 <= k < |rabbits|
      ensures Metric(rabbits[k], head, sz.rows - 1, sz.cols - 1) == TWO64 - 1 <==> Lost(sz, rabbits[k], head)
      ensures Metric(rabbits[k], head, sz.rows - 1, sz.cols - 1) <= TWO64 - 1
    {
      MetricIs(sz, rabbits[k], head);
    }
  }

  /** On a board with at most two rows more than columns no rabbit can be lost. */
  lemma NothingLost(sz: Size, r: Coord, head: Coord)
    requires OnBoard(sz, r) && OnBoard(sz, head) && sz.rows <= sz.cols + 2
    ensures !Lost(sz, r, head)
  {
  }

  /** The last two loops: the first permitted direction of a list. */
  method FirstPermitted(dirs: seq<Dir>, perms: map<Dir, bool>, ghost p: Permits) returns (d: Dir)
    requires forall e :: e in dirs ==> e != Def && e in perms && perms[e] == p.Allows(e)
    ensures d == FirstAllowed(dirs, p)
  {
    var rest := dirs;
    while rest != []
      invariant FirstAllowed(rest, p) == FirstAllowed(dirs, p)
      invariant forall e :: e in rest ==> e in dirs
    {
      assert rest[0] in dirs;
      if perms[rest[0]] {
        return rest[0];
      }
      rest := rest[1..];
    }
    return Def;
  }

  /** The permission map: a direction whose neighbour is marked S is struck off. */
  method ReadPermits(field: Matrix, head: Coord) returns (perms: map<Dir, bool>, ghost p: Permits)
    requires field.Valid() && head.first >= 2 && head.second >= 2
    ensures ReadsOff(field, head, p)
    ensures forall e :: e != Def ==> e in perms && perms[e] == p.Allows(e)
  {
    var x, y := head.first - 2, head.second - 2;
    perms := map[Down := true, Up := true, Left := true, Right := true];
    if field.UpTo(x, y) == S { perms := perms[Up := false]; }
    if field.DownTo(x, y) == S { perms := perms[Down := false]; }
    if field.LeftTo(x, y) == S { perms := perms[Left := false]; }
    if field.RightTo(x, y) == S { perms := perms[Right := false]; }
    p := Permits(field.UpTo(x, y) != S, field.DownTo(x, y) != S, field.LeftTo(x, y) != S, field.RightTo(x, y) != S);
  }

  /** What calcNextStep may return for an alive snake. */
  ghost predicate MayReturn(field: Matrix, rabbits: seq<Coord>, head: Coord, paused: bool, d: Dir)
    requires field.Valid() && head.first >= 2 && head.second >= 2
    reads field.buf
  {
    if paused then d == Def
    else exists target, p :: Returns(field, rabbits, head, target, p, d)
  }

  ghost predicate Returns(field: Matrix, rabbits: seq<Coord>, head: Coord, target: Coord, p: Permits, d: Dir)
    requires field.Valid() && head.first >= 2 && head.second >= 2
    reads field.buf
  {
    && IsNearest(rabbits, head, field.m, field.n, target)
    && ReadsOff(field, head, p)
    && d == Choice(Preferred(target, head, field.m, field.n), p)
  }

  lemma MayReturnIs(field: Matrix, rabbits: seq<Coord>, head: Coord, paused: bool, target: Coord, p: Permits, d: Dir)
    requires field.Valid() && head.first >= 2 && head.second >= 2
    requires if paused then d == Def else Returns(field, rabbits, head, target, p, d)
    ensures MayReturn(field, rabbits, head, paused, d)
  {
  }

  /** AI::calcNextStep on the model's rabbits, for a snake with the given head and status. */
  method CalcNextStep(field: Matrix, rabbits: seq<Coord>, head: Coord, alive: bool, paused: bool)
    returns (d: Dir, ghost target: Coord, ghost p: Permits)
    requires field.Valid() && head.first >= 2 && head.second >= 2
    ensures !alive || paused ==> d == Def
    ensures alive && !paused ==> Returns(field, rabbits, head, target, p, d)
  {
    target, p := Coord(0, 0), Permits(false, false, false, false);
    if !alive || paused {
      return Def, target, p;
    }
    var nearest, _ := FindTarget(rabbits, head, field.m, field.n);
    target := nearest;

    var nextStep: seq<Dir> := [];
    var row := PreferRow(nearest.first, head.first, field.n);
    var col := PreferCol(nearest.second, head.second, field.m);
    if row != Def { nextStep := nextStep + [row]; }
    if col != Def { nextStep := nextStep + [col]; }
    assert nextStep == Preferred(target, head, field.m, field.n);

    var perms;
    perms, p := ReadPermits(field, head);
    d := FirstPermitted(nextStep, perms, p);
    if d != Def {
      return d, target, p;
    }
    d := FirstPermitted(MAP_ORDER, perms, p);
  }

  // ----- what the choice is worth -----

  /** The straight distance, not around the border. */
  function Manhattan(a: Coord, b: Coord): nat {
    Apartness(a.first, b.first) + Apartness(a.second, b.second)
  }

  /** A covered neighbour that the matrix shows. */
  ghost predicate Seen(w: World, head: Coord, d: Dir)
    requires Playable(w.sz)
  {
    d != Def && !Wraps(w.sz, head, d) && Covered(w.snakes, Step(w.sz, head, d))
  }

  /** A covered neighbour across the border, which the matrix does not show. */
  ghost predicate Blind(w: World, head: Coord, d: Dir)
    requires Playable(w.sz)
  {
    d != Def && Wraps(w.sz, head, d) && Covered(w.snakes, Step(w.sz, head, d))
  }

  /** No preferred direction is left: each is none, or seen to be covered. */
  ghost predicate Hindered(w: World, head: Coord, target: Coord)
    requires Playable(w.sz)
  {
    var row := PreferRow(target.first, head.first, w.sz.cols - 1);
    var col := PreferCol(target.second, head.second, w.sz.rows - 1);
    (row == Def || Seen(w, head, row)) && (col == Def || Seen(w, head, col))
  }

  /** The first direction in the map's order that is not seen to be covered; Def if all are. */
  ghost function FirstUnseen(w: World, head: Coord): Dir
    requires Playable(w.sz)
  {
    if !Seen(w, head, Right) then Right
    else if !Seen(w, head, Down) then Down
    else if !Seen(w, head, Up) then Up
    else if !Seen(w, head, Left) then Left
    else Def
  }

  /** The direction for a target, read off the board: the row's way, else the column's way, else
      the first in the map's order that is not seen to be covered. */
  ghost function Chosen(w: World, head: Coord, target: Coord): Dir
    requires Playable(w.sz)
  {
    ChosenOf(w, head, PreferRow(target.first, head.first, w.sz.cols - 1),
             PreferCol(target.second, head.second, w.sz.rows - 1))
  }

  ghost function ChosenOf(w: World, head: Coord, row: Dir, col: Dir): Dir
    requires Playable(w.sz)
  {
    if row != Def && !Seen(w, head, row) then row
    else if col != Def && !Seen(w, head, col) then col
    else FirstUnseen(w, head)
  }

  /** The choice in the board's own terms: towards the target's row if that way is not seen to be
      covered; else towards its column; else right, down, up or left, whichever comes first. */
  lemma ChosenInWords(w: World, head: Coord, target: Coord)
    requires Playable(w.sz) && OnBoard(w.sz, head) && Aimed(w.sz, target)
    ensures var d := Chosen(w, head, target);
            if target.first < head.first && !Seen(w, head, Up) then d == Up
            else if target.first > head.first && !Seen(w, head, Down) then d == Down
            else if target.second < head.second && !Seen(w, head, Left) then d == Left
            else if target.second > head.second && !Seen(w, head, Right) then d == Right
            else if !Seen(w, head, Right) then d == Right
            else if !Seen(w, head, Down) then d == Down
            else if !Seen(w, head, Up) then d == Up
            else if !Seen(w, head, Left) then d == Left
            else d == Def
  {
    PreferenceIsStraight(target, head, w.sz.rows - 1, w.sz.cols - 1);
  }

  /** The permissions are those of the board. */
  ghost predicate Truthful(w: World, head: Coord, p: Permits)
    requires Playable(w.sz)
  {
    forall e :: p.Allows(e) <==> e != Def && !Seen(w, head, e)
  }

  lemma PermitsAreTrue(field: Matrix, w: World, head: Coord, p: Permits)
    requires WorldOk(w) && Shows(field, w) && OnBoard(w.sz, head) && ReadsOff(field, head, p)
    ensures Truthful(w, head, p)
  {
    forall e ensures p.Allows(e) <==> e != Def && !Seen(w, head, e) {
      if e != Def { LookIsExact(field, w, head, e); }
    }
  }

  lemma FirstCons(d: Dir, rest: seq<Dir>, p: Permits)
    ensures FirstAllowed([d] + rest, p) == if p.Allows(d) then d else FirstAllowed(rest, p)
  {
    assert ([d] + rest)[1..] == rest;
  }

  lemma FirstInOrder(p: Permits)
    ensures FirstAllowed(MAP_ORDER, p) ==
            if p.right then Right else if p.down then Down else if p.up then Up else if p.left then Left else Def
  {
    assert MAP_ORDER == [Right] + ([Down] + ([Up] + ([Left] + [])));
    FirstCons(Right, [Down] + ([Up] + ([Left] + [])), p);
    FirstCons(Down, [Up] + ([Left] + []), p);
    FirstCons(Up, [Left] + [], p);
    FirstCons(Left, [], p);
  }

  lemma FirstPreferred(row: Dir, col: Dir, p: Permits)
    ensures FirstAllowed((if row == Def then [] else [row]) + (if col == Def then [] else [col]), p) ==
            if p.Allows(row) then row else if p.Allows(col) then col else Def
  {
    var rest := if col == Def then [] else [col];
    if col != Def { FirstCons(col, [], p); assert [col] + [] == rest; }
    if row == Def {
      assert [] + rest == rest;
    } else {
      FirstCons(row, rest, p);
    }
  }

  /** The choice as a chain of tests, without lists. */
  function Tested(row: Dir, col: Dir, p: Permits): Dir {
    if p.Allows(row) then row else if p.Allows(col) then col
    else if p.right then Right else if p.down then Down else if p.up then Up else if p.left then Left else Def
  }

  lemma ChoiceIsTested(target: Coord, head: Coord, m: nat, n: nat, p: Permits)
    ensures Choice(Preferred(target, head, m, n), p) ==
            Tested(PreferRow(target.first, head.first, n), PreferCol(target.second, head.second, m), p)
  {
    FirstPreferred(PreferRow(target.first, head.first, n), PreferCol(target.second, head.second, m), p);
    FirstInOrder(p);
  }

  lemma TestedIsChosen(field: Matrix, w: World, head: Coord, row: Dir, col: Dir, p: Permits)
    requires WorldOk(w) && Shows(field, w) && OnBoard(w.sz, head) && ReadsOff(field, head, p)
    ensures Tested(row, col, p) == ChosenOf(w, head, row, col)
  {
    PermitsAreTrue(field, w, head, p);
    assert p.Allows(Right) == p.right && p.Allows(Down) == p.down && p.Allows(Up) == p.up && p.Allows(Left) == p.left;
  }

  /** What calcNextStep computes from the matrix is the choice read off the board. */
  lemma ChoiceIsChosen(field: Matrix, w: World, head: Coord, target: Coord, p: Permits)
    requires WorldOk(w) && Shows(field, w) && OnBoard(w.sz, head) && ReadsOff(field, head, p)
    ensures Choice(Preferred(target, head, field.m, field.n), p) == Chosen(w, head, target)
  {
    ChoiceIsTested(target, head, field.m, field.n, p);
    TestedIsChosen(field, w, head, PreferRow(target.first, head.first, field.n),
                   PreferCol(target.second, head.second, field.m), p);
  }

  /** A preferred direction brings the head one closer to the target and does not wrap. */
  lemma PreferredApproaches(sz: Size, head: Coord, target: Coord, d: Dir)
    requires Playable(sz) && OnBoard(sz, head) && OnBoard(sz, target)
    requires d in Preferred(target, head, sz.rows - 1, sz.cols - 1)
    ensures !Wraps(sz, head, d) && d != Def
    ensures Manhattan(Step(sz, head, d), target) == Manhattan(head, target) - 1
  {
    PreferenceIsStraight(target, head, sz.rows - 1, sz.cols - 1);
    StepIs(sz, head, d);
  }

  lemma CellsAreCovered(snakes: seq<Snake>, i: nat, k: nat)
    requires i < |snakes| && k < |snakes[i].body|
    ensures Covered(snakes, snakes[i].body[k])
  {
    assert snakes[i].body[k] in snakes[i].body;
  }

  /** The targets there are: cells of the board, and the default cell if all rabbits are lost. */
  predicate Aimed(sz: Size, target: Coord) {
    OnBoard(sz, target) || target == Coord(0, 0)
  }

  /** The way e leads across the border to a covered cell, and the computer is sure to choose it:
      all preferred directions are seen to be covered and e is the first in the map's order that
      is not; or, for the default target, e is up, or left when up is seen to be covered. */
  ghost predicate Lured(w: World, head: Coord, target: Coord, e: Dir)
    requires Playable(w.sz)
  {
    && Blind(w, head, e)
    && ((Hindered(w, head, target) && e == FirstUnseen(w, head)) ||
        (target == Coord(0, 0) && (e == Up || (e == Left && Seen(w, head, Up)))))
  }

  lemma LuredIsChosen(w: World, head: Coord, target: Coord, e: Dir)
    requires WorldOk(w) && OnBoard(w.sz, head) && Aimed(w.sz, target) && Lured(w, head, target, e)
    ensures Chosen(w, head, target) == e
  {
    PreferenceIsStraight(target, head, w.sz.rows - 1, w.sz.cols - 1);
  }

  lemma HitIsLured(w: World, head: Coord, target: Coord)
    requires WorldOk(w) && OnBoard(w.sz, head) && Aimed(w.sz, target) && Chosen(w, head, target) != Def
    requires Covered(w.snakes, Step(w.sz, head, Chosen(w, head, target)))
    ensures Lured(w, head, target, Chosen(w, head, target))
  {
    PreferenceIsStraight(target, head, w.sz.rows - 1, w.sz.cols - 1);
  }

  /** Exactly when the chosen direction leads to a covered cell, for every target and every head. */
  lemma ChosenHits(w: World, head: Coord, target: Coord)
    requires WorldOk(w) && OnBoard(w.sz, head) && Aimed(w.sz, target)
    ensures var d := Chosen(w, head, target);
            && ((d != Def && Covered(w.snakes, Step(w.sz, head, d))) <==> exists e :: Lured(w, head, target, e))
            && forall e :: Lured(w, head, target, e) ==> e == d
  {
    var d := Chosen(w, head, target);
    forall e | Lured(w, head, target, e) ensures e == d {
      LuredIsChosen(w, head, target, e);
    }
    if d != Def && Covered(w.snakes, Step(w.sz, head, d)) {
      HitIsLured(w, head, target);
    }
  }

  /** The computer is sure to choose the reverse of the snake's direction: it is not seen to be
      covered, and it is the row's way, or the column's way with none left for the row, or the
      first in the map's order with no preferred one left. */
  ghost predicate AsksBack(w: World, s: Snake, target: Coord)
    requires Playable(w.sz) && s.body != []
  {
    var head, back := s.body[0], Reverse(s.prevD);
    var row := PreferRow(target.first, head.first, w.sz.cols - 1);
    var col := PreferCol(target.second, head.second, w.sz.rows - 1);
    && !Seen(w, head, back)
    && (back == row ||
        (back == col && (row == Def || Seen(w, head, row))) ||
        (Hindered(w, head, target) && back == FirstUnseen(w, head)))
  }

  lemma TurnIs(sz: Size, s: Snake, d: Dir)
    requires Playable(sz) && SnakeOk(sz, s)
    ensures Turn(s.prevD, d) == if d == Def || d == Reverse(s.prevD) then s.prevD else d
    ensures |s.body| >= 2 ==> (d == Reverse(s.prevD) <==> d != Def && Step(sz, s.body[0], d) == s.body[1])
  {
    if |s.body| >= 2 {
      StepBack(sz, s.body[1], s.prevD, d);
    }
  }

  /** Exactly when the move overrides the choice: if it asks back. From two cells on that means
      that the way to the neck leads across the border, where the matrix does not show it. */
  lemma ChosenIsOverridden(w: World, i: nat, target: Coord)
    requires WorldOk(w) && i < |w.snakes| && Aimed(w.sz, target)
    ensures var s := w.snakes[i];
            var d := Chosen(w, s.body[0], target);
            && ((d != Def && Turn(s.prevD, d) != d) <==> AsksBack(w, s, target))
            && (|s.body| >= 2 ==>
                  (AsksBack(w, s, target) <==>
                   exists e :: Lured(w, s.body[0], target, e) && Step(w.sz, s.body[0], e) == s.body[1]))
  {
    var s := w.snakes[i];
    var d := Chosen(w, s.body[0], target);
    TurnIs(w.sz, s, d);
    ChosenHits(w, s.body[0], target);
    if |s.body| >= 2 {
      CellsAreCovered(w.snakes, i, 1);
    }
  }

  /** Exactly when the computer's move leads to a cell that was covered at the snapshot, for every
      target, every length and every head: all neighbours are seen to be covered; or it asks back
      and the cell straight ahead is covered; or it does not, and is lured across the border. */
  lemma MoveHits(w: World, i: nat, target: Coord)
    requires WorldOk(w) && i < |w.snakes| && Aimed(w.sz, target)
    ensures var s := w.snakes[i];
            Covered(w.snakes, HeadAfter(w.sz, s, Chosen(w, s.body[0], target))) <==>
            || FirstUnseen(w, s.body[0]) == Def
            || (if AsksBack(w, s, target) then Covered(w.snakes, Step(w.sz, s.body[0], s.prevD))
                else exists e :: Lured(w, s.body[0], target, e))
  {
    var s := w.snakes[i];
    TurnIs(w.sz, s, Chosen(w, s.body[0], target));
    ChosenIsOverridden(w, i, target);
    ChosenHits(w, s.body[0], target);
    assert Seen(w, s.body[0], s.prevD) ==> Covered(w.snakes, Step(w.sz, s.body[0], s.prevD));
  }

  /** From two cells on: all neighbours are seen to be covered; or it is lured across the border,
      and if that way leads to its neck the cell straight ahead is covered, too. */
  lemma LongMoveHits(w: World, i: nat, target: Coord)
    requires WorldOk(w) && i < |w.snakes| && |w.snakes[i].body| >= 2 && Aimed(w.sz, target)
    ensures var s := w.snakes[i];
            Covered(w.snakes, HeadAfter(w.sz, s, Chosen(w, s.body[0], target))) <==>
            || FirstUnseen(w, s.body[0]) == Def
            || exists e :: Lured(w, s.body[0], target, e) &&
                 (Step(w.sz, s.body[0], e) == s.body[1] ==> Covered(w.snakes, Step(w.sz, s.body[0], s.prevD)))
  {
    ChosenIsOverridden(w, i, target);
    MoveHits(w, i, target);
    ChosenHits(w, w.snakes[i].body[0], target);
  }

  /** Safety of the computer player. Whatever the target, for a snake of two or more cells whose
      head is off the border: the choice is Def only if all four neighbours were covered; else
      it leads to a cell that nobody covered at the snapshot, and move obeys it. */
  lemma AiIsSafe(w: World, i: nat, target: Coord)
    requires WorldOk(w) && i < |w.snakes| && |w.snakes[i].body| >= 2
    requires OffBorder(w.sz, w.snakes[i].body[0])
    ensures var s := w.snakes[i];
            var d := Chosen(w, s.body[0], target);
            && (d == Def <==> forall e :: e != Def ==> Covered(w.snakes, Step(w.sz, s.body[0], e)))
            && (d != Def ==>
                  Turn(s.prevD, d) == d && !Covered(w.snakes, HeadAfter(w.sz, s, d)))
  {
    var s := w.snakes[i];
    forall e | e != Def ensures Seen(w, s.body[0], e) <==> Covered(w.snakes, Step(w.sz, s.body[0], e)) {
    }
    TurnIs(w.sz, s, Chosen(w, s.body[0], target));
    CellsAreCovered(w.snakes, i, 1);
  }

  /** Progress of the computer player. Whichever rabbit is the target, wherever the head is: if
      a preferred direction is not seen to be covered, the move that is made is safe and lowers
      the straight distance to the target by exactly one. */
  lemma AiApproaches(w: World, i: nat, target: Coord)
    requires WorldOk(w) && i < |w.snakes| && |w.snakes[i].body| >= 2 && OnBoard(w.sz, target)
    requires var head := w.snakes[i].body[0]; !Hindered(w, head, target)
    ensures var s := w.snakes[i];
            var d := Chosen(w, s.body[0], target);
            var head' := HeadAfter(w.sz, s, d);
            && d != Def && Turn(s.prevD, d) == d && !Covered(w.snakes, head')
            && Manhattan(head', target) == Manhattan(s.body[0], target) - 1
  {
    var s := w.snakes[i];
    ChosenIsOverridden(w, i, target);
    ChosenHits(w, s.body[0], target);
    PreferredApproaches(w.sz, s.body[0], target, Chosen(w, s.body[0], target));
  }
}
