/** How many cells the drawing range has, and why a draw for a new rabbit can succeed. */
module Board {
  import opened Torus
  import opened Snakes

  /** All snake cells, as createRabbitRandom lists them. */
  function Cells(snakes: seq<Snake>): seq<Coord> {
    if snakes == [] then [] else Cells(snakes[..|snakes| - 1]) + snakes[|snakes| - 1].body
  }

  lemma {:induction false} CellsAreCovered(snakes: seq<Snake>, c: Coord)
    ensures c in Cells(snakes) <==> Covered(snakes, c)
  {
    if snakes != [] {
      var n := |snakes| - 1;
      CellsAreCovered(snakes[..n], c);
      assert Covered(snakes, c) <==> Covered(snakes[..n], c) || c in snakes[n].body by {
        if Covered(snakes[..n], c) {
          var j :| 0 <= j < n && c in snakes[..n][j].body;
          assert c in snakes[j].body;
        }
        if Covered(snakes, c) {
          var j :| 0 <= j <= n && c in snakes[j].body;
          assert j < n ==> c in snakes[..n][j].body;
        }
      }
    }
  }

  lemma {:induction false} CellsSet(snakes: seq<Snake>, i: nat, s: Snake)
    requires i < |snakes|
    ensures |Cells(snakes[i := s])| == |Cells(snakes)| - |snakes[i].body| + |s.body|
  {
    var n := |snakes| - 1;
    if i == n {
      assert snakes[i := s][..n] == snakes[..n];
    } else {
      CellsSet(snakes[..n], i, s);
      assert snakes[i := s][..n] == snakes[..n][i := s];
    }
  }

  /** The number of cells createRabbitRandom draws from. */
  function Area(sz: Size): int {
    (sz.rows - 3) * (sz.cols - 3)
  }

  ghost function RowCells(row: nat, cols: nat): set<Coord>
  {
    if cols == 0 then {} else RowCells(row, cols - 1) + {Coord(row, cols + 1)}
  }

  ghost function BlockCells(rows: nat, cols: nat): set<Coord>
  {
    if rows == 0 then {} else BlockCells(rows - 1, cols) + RowCells(rows + 1, cols)
  }

  lemma {:induction false} RowCellsAre(row: nat, cols: nat)
    ensures |RowCells(row, cols)| == cols
    ensures forall c :: c in RowCells(row, cols) <==> c.first == row && 2 <= c.second < cols + 2
  {
    if cols > 0 {
      RowCellsAre(row, cols - 1);
    }
  }

  /** The rectangle of rows x cols cells from (2, 2) on has rows * cols cells. */
  lemma {:induction false} BlockCellsAre(rows: nat, cols: nat)
    ensures |BlockCells(rows, cols)| == rows * cols
    ensures forall c :: c in BlockCells(rows, cols) <==> 2 <= c.first < rows + 2 && 2 <= c.second < cols + 2
  {
    if rows > 0 {
      BlockCellsAre(rows - 1, cols);
      RowCellsAre(rows + 1, cols);
      assert BlockCells(rows - 1, cols) !! RowCells(rows + 1, cols);
      assert rows * cols == (rows - 1) * cols + cols;
    }
  }

  lemma {:induction false} FewElements(busy: seq<Coord>)
    ensures |set c | c in busy| <= |busy|
  {
    if busy != [] {
      FewElements(busy[1..]);
      assert (set c | c in busy) == {busy[0]} + (set c | c in busy[1..]);
    }
  }

  /** Pigeonhole: fewer busy cells than the range has leave one cell of the range free. */
  lemma SomeCellFree(sz: Size, busy: seq<Coord>)
    requires Playable(sz) && |busy| < Area(sz)
    ensures exists c :: InDrawRange(sz, c) && c !in busy
  {
    var block, taken := BlockCells(sz.rows - 3, sz.cols - 3), set c | c in busy;
    BlockCellsAre(sz.rows - 3, sz.cols - 3);
    FewElements(busy);
    if block <= taken {
      SubsetSize(block, taken);
      assert false;
    }
    var c :| c in block && c !in taken;
    assert InDrawRange(sz, c) && c !in busy;
  }

  lemma {:induction false} SubsetSize<T>(a: set<T>, b: set<T>)
    requires a <= b
    ensures |a| <= |b|
  {
    assert b == a + (b - a);
  }

  // ----- rand -----

  /** A draw of a cell from the stream of rand results, from position pos on. */
  function Drawn(rand: nat -> nat, sz: Size, pos: nat): Coord
    requires Playable(sz)
    ensures InDrawRange(sz, Drawn(rand, sz, pos))
  {
    Coord(rand(pos) % (sz.rows - 3) + 2, rand(pos + 1) % (sz.cols - 3) + 2)
  }

  lemma Remainder(x: nat, a: nat, n: nat)
    requires x < n
    ensures (x + a * n) % n == x && (x + a * n) / n == a
  {
    var y := x + a * n;
    assert y == (y / n) * n + y % n;
    assert (y / n - a) * n == x - y % n;
    if y / n > a {
      MultipleAtLeast(y / n - a, n);
    } else if y / n < a {
      MultipleAtLeast(a - y / n, n);
    }
  }

  lemma MultipleAtLeast(a: nat, n: nat)
    requires a >= 1
    ensures a * n >= n
  {
  }

  /** Which cell two results of rand give: every cell of the range, by its own remainders. */
  lemma DrawnIs(rand: nat -> nat, sz: Size, pos: nat, c: Coord, a: nat, b: nat)
    requires Playable(sz) && InDrawRange(sz, c)
    requires rand(pos) == c.first - 2 + a * (sz.rows - 3)
    requires rand(pos + 1) == c.second - 2 + b * (sz.cols - 3)
    ensures Drawn(rand, sz, pos) == c
  {
    Remainder(c.first - 2, a, sz.rows - 3);
    Remainder(c.second - 2, b, sz.cols - 3);
  }

  /** The k-th draw from position pos on; a draw takes two results of rand. */
  function DrawAt(rand: nat -> nat, sz: Size, pos: nat, k: nat): Coord
    requires Playable(sz)
    ensures InDrawRange(sz, DrawAt(rand, sz, pos, k))
  {
    Drawn(rand, sz, pos + 2 * k)
  }

  ghost predicate Offers(rand: nat -> nat, sz: Size, pos: nat, c: Coord)
    requires Playable(sz)
  {
    exists k: nat :: DrawAt(rand, sz, pos, k) == c
  }

  /** From every position on, every cell of the range is drawn at some time. */
  ghost predicate Fair(rand: nat -> nat, sz: Size)
    requires Playable(sz)
  {
    forall pos: nat, c :: InDrawRange(sz, c) ==> Offers(rand, sz, pos, c)
  }

  /** Result n of a stream in which every cell comes up again and again, at even and at odd
      positions: results 3t and 3t + 1 are the row and the column of cell number t / 2, counted
      around the range. */
  function Sweep(sz: Size, n: nat): nat
    requires Playable(sz)
  {
    var cols, area := sz.cols - 3, Area(sz);
    AreaPositive(sz);
    var x := n / 3 / 2 % area;
    if n % 3 == 0 then x / cols else if n % 3 == 1 then x % cols else 0
  }

  lemma AreaPositive(sz: Size)
    requires Playable(sz)
    ensures Area(sz) > 0
  {
    MultipleAtLeast(sz.rows - 3, sz.cols - 3);
  }

  /** The number of a cell of the range, row by row. */
  function CellNumber(sz: Size, c: Coord): nat
    requires InDrawRange(sz, c)
  {
    NotNegative(c.first - 2, sz.cols - 3);
    (c.second - 2) + (c.first - 2) * (sz.cols - 3)
  }

  lemma NotNegative(x: nat, y: nat)
    ensures x * y >= 0
  {
  }

  lemma CellNumberIs(sz: Size, c: Coord)
    requires Playable(sz) && InDrawRange(sz, c)
    ensures CellNumber(sz, c) < Area(sz)
    ensures CellNumber(sz, c) / (sz.cols - 3) == c.first - 2 && CellNumber(sz, c) % (sz.cols - 3) == c.second - 2
  {
    var cols, x := sz.cols - 3, c.first - 2;
    Remainder(c.second - 2, x, cols);
    assert Area(sz) == x * cols + (sz.rows - 3 - x) * cols;
    MultipleAtLeast(sz.rows - 3 - x, cols);
  }

  /** A position of a cell, in round v and on either parity. */
  function SweepPos(sz: Size, c: Coord, v: nat, odd: nat): nat
    requires Playable(sz) && InDrawRange(sz, c)
  {
    AreaPositive(sz);
    NotNegative(v, Area(sz));
    3 * (2 * (CellNumber(sz, c) + v * Area(sz)) + odd)
  }

  lemma SweepAt(sz: Size, c: Coord, v: nat, odd: nat)
    requires Playable(sz) && InDrawRange(sz, c) && odd < 2
    ensures var n := SweepPos(sz, c, v, odd);
            Sweep(sz, n) == c.first - 2 && Sweep(sz, n + 1) == c.second - 2
  {
    var w := CellNumber(sz, c) + v * Area(sz);
    var n := SweepPos(sz, c, v, odd);
    CellNumberIs(sz, c);
    Remainder(CellNumber(sz, c), v, Area(sz));
    assert n / 3 == 2 * w + odd && n % 3 == 0 && (n + 1) / 3 == 2 * w + odd && (n + 1) % 3 == 1;
    assert (2 * w + odd) / 2 == w;
  }

  lemma SweepDraws(sz: Size, rand: nat -> nat, c: Coord, v: nat, odd: nat, n: nat)
    requires Playable(sz) && InDrawRange(sz, c) && odd < 2 && n == SweepPos(sz, c, v, odd)
    requires rand(n) == Sweep(sz, n) && rand(n + 1) == Sweep(sz, n + 1)
    ensures Drawn(rand, sz, n) == c
  {
    SweepAt(sz, c, v, odd);
    DrawnIs(rand, sz, n, c, 0, 0);
  }

  lemma SweepOffers(sz: Size, rand: nat -> nat, pos: nat, c: Coord)
    requires Playable(sz) && InDrawRange(sz, c) && forall n: nat :: rand(n) == Sweep(sz, n)
    ensures Offers(rand, sz, pos, c)
  {
    AreaPositive(sz);
    PosTimes(pos, Area(sz));
    var n := SweepPos(sz, c, pos, pos % 2);
    SweepDraws(sz, rand, c, pos, pos % 2, n);
    var w := CellNumber(sz, c) + pos * Area(sz);
    var k := 3 * w + pos % 2 - pos / 2;
    assert n == pos + 2 * k;
    assert DrawAt(rand, sz, pos, k) == c;
  }

  lemma PosTimes(pos: nat, area: nat)
    requires area >= 1
    ensures pos * area >= pos
  {
  }

  /** Fair streams exist for every board. */
  lemma SomeRandIsFair(sz: Size)
    requires Playable(sz)
    ensures exists rand :: Fair(rand, sz)
  {
    var rand := (n: nat) => Sweep(sz, n);
    forall pos: nat, c | InDrawRange(sz, c) ensures Offers(rand, sz, pos, c) {
      SweepOffers(sz, rand, pos, c);
    }
    assert Fair(rand, sz);
  }

  /** There is room for one more rabbit. */
  predicate Room(w: World) {
    |Cells(w.snakes)| + |w.rabbits| < Area(w.sz)
  }

  /** Everything createRabbitRandom keeps clear of. */
  function Busy(w: World): seq<Coord> {
    Cells(w.snakes) + w.rabbits
  }

  lemma FreeIsNotBusy(w: World, c: Coord)
    ensures Free(w, c) <==> InDrawRange(w.sz, c) && c !in Busy(w)
  {
    CellsAreCovered(w.snakes, c);
  }

  /** Some draw from position pos on is accepted: exactly then the loop ends. */
  ghost predicate Accepting(rand: nat -> nat, sz: Size, pos: nat, busy: seq<Coord>)
    requires Playable(sz)
  {
    exists k: nat :: DrawAt(rand, sz, pos, k) !in busy
  }

  ghost predicate IsFirst(rand: nat -> nat, sz: Size, pos: nat, busy: seq<Coord>, k: nat)
    requires Playable(sz)
  {
    DrawAt(rand, sz, pos, k) !in busy && forall j: nat :: j < k ==> DrawAt(rand, sz, pos, j) in busy
  }

  /** If some draw would be accepted, one is the first. */
  lemma {:induction false} SomeFirst(rand: nat -> nat, sz: Size, pos: nat, busy: seq<Coord>, k: nat)
    requires Playable(sz) && DrawAt(rand, sz, pos, k) !in busy
    ensures exists j: nat :: IsFirst(rand, sz, pos, busy, j)
  {
    if j: nat :| j < k && DrawAt(rand, sz, pos, j) !in busy {
      SomeFirst(rand, sz, pos, busy, j);
    } else {
      assert IsFirst(rand, sz, pos, busy, k);
    }
  }

  /** The number of the first draw that is accepted. */
  ghost function FirstDraw(rand: nat -> nat, sz: Size, pos: nat, busy: seq<Coord>): (k: nat)
    requires Playable(sz) && Accepting(rand, sz, pos, busy)
    ensures IsFirst(rand, sz, pos, busy, k)
  {
    var k: nat :| DrawAt(rand, sz, pos, k) !in busy;
    SomeFirst(rand, sz, pos, busy, k);
    var j: nat :| IsFirst(rand, sz, pos, busy, j);
    j
  }

  /** With room and a fair rand the loop of createRabbitRandom has an accepting draw. */
  lemma AcceptingDraw(rand: nat -> nat, w: World, pos: nat)
    requires Playable(w.sz) && Fair(rand, w.sz) && Room(w)
    ensures Accepting(rand, w.sz, pos, Busy(w))
  {
    SomeCellFree(w.sz, Busy(w));
    var c :| InDrawRange(w.sz, c) && c !in Busy(w);
    assert Offers(rand, w.sz, pos, c);
    var k: nat :| DrawAt(rand, w.sz, pos, k) == c;
    assert DrawAt(rand, w.sz, pos, k) !in Busy(w);
  }

  /** The cell that createRabbitRandom draws. */
  ghost function NextCell(rand: nat -> nat, w: World, pos: nat): (c: Coord)
    requires Playable(w.sz) && Accepting(rand, w.sz, pos, Busy(w))
    ensures Free(w, c)
  {
    var c := DrawAt(rand, w.sz, pos, FirstDraw(rand, w.sz, pos, Busy(w)));
    FreeIsNotBusy(w, c);
    c
  }

  /** The board with a rabbit there. */
  ghost function OneMore(rand: nat -> nat, w: World, pos: nat): World
    requires Playable(w.sz) && Accepting(rand, w.sz, pos, Busy(w))
  {
    w.(rabbits := w.rabbits + [NextCell(rand, w, pos)])
  }

  /** How many results of rand that takes. */
  ghost function Used(rand: nat -> nat, w: World, pos: nat): nat
    requires Playable(w.sz) && Accepting(rand, w.sz, pos, Busy(w))
  {
    2 * FirstDraw(rand, w.sz, pos, Busy(w)) + 2
  }

  /** The draws from position pos on place `count` rabbits one after the other. */
  ghost predicate CanStock(rand: nat -> nat, w: World, pos: nat, count: nat)
    requires Playable(w.sz)
    decreases count
  {
    count > 0 ==>
      && Accepting(rand, w.sz, pos, Busy(w))
      && CanStock(rand, OneMore(rand, w, pos), pos + Used(rand, w, pos), count - 1)
  }

  /** A fair rand can always do so where there is room. */
  lemma {:induction false} FairStocks(rand: nat -> nat, w: World, pos: nat, count: nat)
    requires Playable(w.sz) && Fair(rand, w.sz) && |Busy(w)| + count <= Area(w.sz)
    ensures CanStock(rand, w, pos, count)
    decreases count
  {
    if count > 0 {
      AcceptingDraw(rand, w, pos);
      FairStocks(rand, OneMore(rand, w, pos), pos + Used(rand, w, pos), count - 1);
    }
  }

  /** Should snake i eat a rabbit by moving in direction d, then a new one finds a place. */
  ghost predicate CanFeed(rand: nat -> nat, w: World, pos: nat, i: nat, d: Dir)
    requires Playable(w.sz) && Movable(w, i)
  {
    Eats(w, i, d) ==> Accepting(rand, w.sz, pos, Busy(Eaten(w, i, d)))
  }

  /** Where the new rabbit appears then; any cell if none is eaten. */
  ghost function FedCell(rand: nat -> nat, w: World, pos: nat, i: nat, d: Dir): (c: Coord)
    requires Playable(w.sz) && Movable(w, i) && CanFeed(rand, w, pos, i, d)
    ensures CanMove(w, i, d, c)
  {
    if Eats(w, i, d) then NextCell(rand, Eaten(w, i, d), pos) else Coord(0, 0)
  }

  /** And the position in the stream after that. */
  ghost function FedPos(rand: nat -> nat, w: World, pos: nat, i: nat, d: Dir): nat
    requires Playable(w.sz) && Movable(w, i) && CanFeed(rand, w, pos, i, d)
  {
    if Eats(w, i, d) then pos + Used(rand, Eaten(w, i, d), pos) else pos
  }

  /** Moving keeps snake cells plus rabbits, or adds one cell when a rabbit is eaten. */
  lemma MoveTakesRoom(w: World, i: nat, d: Dir, cell: Coord)
    requires Movable(w, i)
    ensures var w' := Moved(w, i, d, cell);
            |Cells(w'.snakes)| + |w'.rabbits| ==
            |Cells(w.snakes)| + |w.rabbits| + (if Eats(w, i, d) then 1 else 0)
    ensures Eats(w, i, d) ==>
              var e := Eaten(w, i, d); |Cells(e.snakes)| + |e.rabbits| == |Cells(w.snakes)| + |w.rabbits|
  {
    CellsSet(w.snakes, i, MovedSnake(w.sz, w.snakes[i], d, Eats(w, i, d)));
  }
}
