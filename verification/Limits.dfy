/** Boards of the game on which the computer player goes wrong. Module Ai says exactly when that
    happens; these are games that get there, with as many rabbits as the program has. */
module Limits {
  import opened Torus
  import opened Snakes
  import Frames
  import Ai

  // ----- heads on the border -----

  const SIZE := Size(20, 20)
  const CORNER := Coord(2, 4)  // the first row's cell with a rabbit that the computer's snake eats

  /** Nine rabbits in row 10. */
  function Row(): seq<Coord> {
    seq(9, k requires 0 <= k < 9 => Coord(10, 5 + k))
  }

  /** Four snakes and ten rabbits. The computer's snake, the last one, starts below the corner or,
      if `back`, across the border from it, hemmed in by the first and the third one. */
  function Start(back: bool): World {
    World(SIZE,
          [Snake([if back then Coord(19, 5) else Coord(3, 5)], Right, true),
           Snake([if back then Coord(3, 3) else Coord(19, 3)], Right, true),
           Snake([Coord(18, 4)], Right, true),
           Snake([if back then Coord(19, 4) else Coord(3, 4)], Right, true)],
          [CORNER] + Row())
  }

  /** One frame: the first snake goes to the cell right of the corner, the second one straight on,
      the third one up, and the computer's eats the rabbit in the corner. */
  function Moves(back: bool): Frames.Round {
    var d := if back then Down else Up;
    Frames.Round([Move(0, d, Coord(0, 0)), Move(1, Def, Coord(0, 0)), Move(2, Up, Coord(0, 0)),
                  Move(3, d, Coord(10, 4))], false)
  }

  /** Then the cells below the corner and across the border from it are covered: one by the
      computer's neck, the other one by the second snake. The cell right of it is covered too. */
  function Later(back: bool): World {
    var d := if back then Down else Up;
    World(SIZE,
          [Snake([Coord(2, 5)], d, true),
           Snake([if back then Coord(3, 4) else Coord(19, 4)], Right, true),
           Snake([Coord(17, 4)], Up, true),
           Snake([CORNER, if back then Coord(19, 4) else Coord(3, 4)], d, true)],
          Row() + [Coord(10, 4)])
  }

  lemma StartPlaced(back: bool)
    ensures Frames.Placed(SIZE, Start(back).snakes) && Frames.Stocked(Start(back))
  {
    var w := Start(back);
    forall k | 0 <= k < |w.rabbits| ensures Frames.PutFree(w, k) {
    }
  }

  /** The world after the first n moves. */
  function Midway(back: bool, n: nat): World {
    var a, b := Start(back), Later(back);
    if n == 0 then a
    else if n == 1 then a.(snakes := [b.snakes[0], a.snakes[1], a.snakes[2], a.snakes[3]])
    else if n == 2 then a.(snakes := [b.snakes[0], b.snakes[1], a.snakes[2], a.snakes[3]])
    else if n == 3 then a.(snakes := [b.snakes[0], b.snakes[1], b.snakes[2], a.snakes[3]])
    else b
  }

  lemma OneCellMoves(s: Snake, d: Dir, fed: bool)
    requires |s.body| == 1
    ensures MovedSnake(SIZE, s, d, fed).body ==
            [HeadAfter(SIZE, s, d)] + (if fed then s.body else [])
  {
  }

  lemma Stepped(back: bool, n: nat)
    requires n < 4
    ensures MovedSnake(SIZE, Start(back).snakes[n], Moves(back).moves[n].d, n == 3) == Later(back).snakes[n]
    ensures HeadAfter(SIZE, Start(back).snakes[n], Moves(back).moves[n].d) == Later(back).snakes[n].body[0]
  {
    var s, d := Start(back).snakes[n], Moves(back).moves[n].d;
    StepIs(SIZE, s.body[0], Turn(s.prevD, d));
    OneCellMoves(s, d, n == 3);
  }

  lemma MoveMade(back: bool, n: nat)
    requires n < 4
    ensures var w, m := Midway(back, n), Moves(back).moves[n];
            Can(w, m) && Do(w, m) == Midway(back, n + 1)
  {
    var w, s' := Midway(back, n), Later(back).snakes[n];
    Stepped(back, n);
    assert w.snakes[n] == Start(back).snakes[n];
    assert w.snakes[n := s'] == Midway(back, n + 1).snakes;
    if n == 3 {
      Fed(back);
    } else {
      assert s'.body[0] !in w.rabbits;
    }
  }

  lemma Fed(back: bool)
    requires Eats(Midway(back, 3), 3, Moves(back).moves[3].d)
    requires MovedSnake(SIZE, Midway(back, 3).snakes[3], Moves(back).moves[3].d, true) == Later(back).snakes[3]
    ensures Eaten(Midway(back, 3), 3, Moves(back).moves[3].d) == Later(back).(rabbits := Row())
    ensures Free(Later(back).(rabbits := Row()), Coord(10, 4))
  {
    var w := Midway(back, 3);
    assert w.rabbits[0] == CORNER && w.rabbits[1..] == Row();
    assert w.snakes[3 := Later(back).snakes[3]] == Later(back).snakes;
  }

  /** A board where nobody's head is on a cell of a body passes all checks unchanged. */
  lemma {:induction false} ClearStays(w: World, k: nat)
    requires k <= |w.snakes| && Bodied(w.snakes)
    requires forall i :: 0 <= i < |w.snakes| ==> Frames.Clear(w.snakes, i)
    ensures BumpFrom(w, k) == w
    decreases |w.snakes| - k
  {
    if k < |w.snakes| {
      var b := w.snakes[k].body;
      assert Frames.Clear(w.snakes, k);
      assert forall j :: 1 <= j < |b| ==> b[j] == b[1..][j - 1];
      assert b[..|b|] == b;
      assert Bumped(w, k).snakes == w.snakes;
      ClearStays(w, k + 1);
    }
  }

  lemma LaterClear(back: bool)
    ensures BumpFrom(Later(back), 0) == Later(back)
  {
    ClearStays(Later(back), 0);
  }

  lemma MovesMade(back: bool)
    ensures var w, m := Start(back), Moves(back).moves;
            Legal(w, m) && After(w, m) == Later(back)
  {
    var w, m := Start(back), Moves(back).moves;
    MoveMade(back, 0);
    MoveMade(back, 1);
    MoveMade(back, 2);
    MoveMade(back, 3);
    OneMoreAct(w, [], m[0]);
    OneMoreAct(w, [] + [m[0]], m[1]);
    OneMoreAct(w, [] + [m[0]] + [m[1]], m[2]);
    OneMoreAct(w, [] + [m[0]] + [m[1]] + [m[2]], m[3]);
    assert [] + [m[0]] + [m[1]] + [m[2]] + [m[3]] == m;
  }

  lemma EachOnce(back: bool)
    ensures Frames.OneEach(Start(back), Moves(back).moves)
  {
  }

  /** The later board is reached by a frame of a game. */
  lemma IsGame(back: bool)
    ensures Frames.Game([Start(back), Later(back)], [Moves(back)])
    ensures |Start(back).rabbits| == 10
  {
    StartPlaced(back);
    MovesMade(back);
    LaterClear(back);
    EachOnce(back);
    assert Frames.Frame(Start(back), Moves(back), Later(back));
  }

  lemma LaterOk(back: bool)
    ensures WorldOk(Later(back))
  {
    IsGame(back);
    Frames.GameSafe([Start(back), Later(back)], [Moves(back)], 1);
  }

  lemma LaterCovers(back: bool)
    ensures var w := Later(back);
            && Covered(w.snakes, Step(SIZE, CORNER, Up)) && Covered(w.snakes, Step(SIZE, CORNER, Down))
            && Covered(w.snakes, Step(SIZE, CORNER, Right)) && !Covered(w.snakes, Step(SIZE, CORNER, Left))
  {
    var w := Later(back);
    StepIs(SIZE, CORNER, Up);
    StepIs(SIZE, CORNER, Down);
    StepIs(SIZE, CORNER, Right);
    StepIs(SIZE, CORNER, Left);
    Ai.CellsAreCovered(w.snakes, 0, 0);
    Ai.CellsAreCovered(w.snakes, 1, 0);
    Ai.CellsAreCovered(w.snakes, 3, 1);
  }

  /** The computer's snake makes its first move by itself: the rabbit in the corner is the only
      target there can be; the choice is up or, where two snakes bar the other ways, down across
      the border; and move obeys it. */
  lemma OwnMove(back: bool, target: Coord)
    ensures var w, d := Start(back), Moves(back).moves[3].d;
            var s := w.snakes[3];
            && (Ai.IsNearest(w.rabbits, s.body[0], SIZE.rows - 1, SIZE.cols - 1, target) <==> target == CORNER)
            && Ai.Chosen(w, s.body[0], CORNER) == d && Turn(s.prevD, d) == d
  {
    var w := Start(back);
    var head := w.snakes[3].body[0];
    forall k | 0 <= k < 10
      ensures if k == 0 then Ai.Metric(w.rabbits[k], head, 19, 19) <= 2 else Ai.Metric(w.rabbits[k], head, 19, 19) > 2
    {
      Ai.AxisDistIs(w.rabbits[k].first, head.first, 19, 9);
      Ai.AxisDistIs(w.rabbits[k].second, head.second, 19, 9);
    }
    Ai.NearestIs(w.rabbits, head, 19, 19, 0, target);
    OwnChoice(back);
  }

  lemma OwnChoice(back: bool)
    ensures Ai.Chosen(Start(back), Start(back).snakes[3].body[0], CORNER) == Moves(back).moves[3].d
  {
    var w := Start(back);
    var head := w.snakes[3].body[0];
    Ai.PreferenceIsStraight(CORNER, head, 19, 19);
    StepIs(SIZE, head, Up);
    StepIs(SIZE, head, Right);
    Ai.CellsAreCovered(w.snakes, 0, 0);
    Ai.CellsAreCovered(w.snakes, 2, 0);
  }

  /** Two ways to go wrong on the border, each after one frame of a game with ten rabbits and
      whichever of them is the target. In both the computer is lured across the border, and ends
      on a covered cell although the cell to its left is free: the other snake is there, or its
      own neck is, so that move goes straight ahead instead, onto the other snake. */
  lemma GoesWrong(back: bool, target: Coord)
    requires target in Later(back).rabbits
    ensures Frames.Game([Start(back), Later(back)], [Moves(back)])
    ensures var w := Later(back);
            var s, d := w.snakes[3], Ai.Chosen(w, CORNER, target);
            && WorldOk(w) && s.body[0] == CORNER && d == Up && Ai.Lured(w, CORNER, target, d)
            && (Turn(s.prevD, d) != d <==> back)
            && Covered(w.snakes, HeadAfter(SIZE, s, d))
            && !Covered(w.snakes, Step(SIZE, CORNER, Left))
  {
    IsGame(back);
    LaterOk(back);
    LaterCovers(back);
    Ai.PreferenceIsStraight(target, CORNER, SIZE.rows - 1, SIZE.cols - 1);
  }

  // ----- a snake of one cell -----

  /** A computer's snake of one cell, off the border, with another snake straight ahead, and ten
      rabbits, the nearest of them behind it. */
  function Behind(): World {
    World(Size(20, 40),
          [Snake([Coord(13, 11)], Right, true), Snake([Coord(13, 10)], Right, true)],
          [Coord(13, 5)] + seq(9, k requires 0 <= k < 9 => Coord(3, 20 + k)))
  }

  lemma BehindStarts()
    ensures Frames.Placed(Behind().sz, Behind().snakes) && Frames.Stocked(Behind()) && |Behind().rabbits| == 10
  {
    forall k | 0 <= k < 10 ensures Frames.PutFree(Behind(), k) {
    }
  }

  lemma BehindNearest(target: Coord)
    ensures Ai.IsNearest(Behind().rabbits, Coord(13, 10), 19, 39, target) <==> target == Coord(13, 5)
  {
    var w, head := Behind(), Coord(13, 10);
    forall k | 0 <= k < 10
      ensures if k == 0 then Ai.Metric(w.rabbits[k], head, 19, 39) == 5 else Ai.Metric(w.rabbits[k], head, 19, 39) > 5
    {
      Ai.AxisDistIs(w.rabbits[k].first, 13, 39, 19);
      Ai.AxisDistIs(w.rabbits[k].second, 10, 39, 9);
    }
    Ai.NearestIs(w.rabbits, head, 19, 39, 0, target);
  }

  lemma BehindCovers()
    ensures var w := Behind();
            && Covered(w.snakes, Step(w.sz, Coord(13, 10), Right))
            && !Covered(w.snakes, Step(w.sz, Coord(13, 10), Left))
  {
    var w := Behind();
    StepIs(w.sz, Coord(13, 10), Left);
    StepIs(w.sz, Coord(13, 10), Right);
    Ai.CellsAreCovered(w.snakes, 0, 0);
  }

  /** The start of a game where the choice is safe, but is a reversal: move overrides it and goes
      straight ahead onto the other snake, even off the border. */
  lemma TurnsIntoSnake(target: Coord)
    requires Ai.IsNearest(Behind().rabbits, Coord(13, 10), 19, 39, target)
    ensures Frames.Placed(Behind().sz, Behind().snakes) && Frames.Stocked(Behind()) && |Behind().rabbits| == 10
    ensures var w := Behind();
            var s, d := w.snakes[1], Ai.Chosen(w, Coord(13, 10), target);
            && s.body == [Coord(13, 10)] && Ai.OffBorder(w.sz, s.body[0])
            && d == Left && !Covered(w.snakes, Step(w.sz, s.body[0], d))
            && Ai.AsksBack(w, s, target) && Turn(s.prevD, d) == Right
            && Covered(w.snakes, HeadAfter(w.sz, s, d))
  {
    BehindStarts();
    BehindNearest(target);
    BehindCovers();
    Ai.PreferenceIsStraight(target, Coord(13, 10), 19, 39);
  }

  // ----- boards much taller than wide -----

  /** Rabbits on a diagonal, as many rows above the last one as the board has columns, and more. */
  function Diagonal(sz: Size, count: nat): seq<Coord>
    requires sz.rows >= sz.cols + 2 + count
  {
    seq(count, k requires 0 <= k < count => Coord(sz.rows - 1 - sz.cols - k, 2 + k))
  }

  /** One snake, in the first column of the last row, and the rabbits of the diagonal. */
  function Tall(sz: Size, count: nat): World
    requires sz.rows >= sz.cols + 2 + count
  {
    World(sz, [Snake([Coord(sz.rows - 1, 2)], Right, true)], Diagonal(sz, count))
  }

  /** On every board that is tall enough, the start of a game where all rabbits, however many,
      are lost: the default cell, which is not on the board, becomes the target. With one rabbit
      that is any board on which a rabbit can be lost at all. */
  lemma AllRabbitsLost(sz: Size, count: nat, target: Coord)
    requires Playable(sz) && sz.rows >= sz.cols + 2 + count && sz.cols >= count + 3
    requires Ai.IsNearest(Diagonal(sz, count), Coord(sz.rows - 1, 2), sz.rows - 1, sz.cols - 1, target)
    ensures Frames.Placed(sz, Tall(sz, count).snakes) && Frames.Stocked(Tall(sz, count))
    ensures forall k :: 0 <= k < count ==> Ai.Lost(sz, Diagonal(sz, count)[k], Coord(sz.rows - 1, 2))
    ensures target == Coord(0, 0) && !OnBoard(sz, target)
  {
    var w, head := Tall(sz, count), Coord(sz.rows - 1, 2);
    forall k | 0 <= k < count ensures Frames.PutFree(w, k) {
    }
    Ai.TargetIsListed(sz, w.rabbits, head, target);
  }

  /** A computer's snake in the first cell of a tall board, another one across the border from it,
      and ten rabbits below, all of them lost. */
  function Adrift(): World {
    World(Size(60, 20),
          [Snake([Coord(59, 2)], Right, true), Snake([Coord(2, 2)], Right, true)],
          seq(10, k requires 0 <= k < 10 => Coord(22 + k, 2 + k)))
  }

  lemma AdriftStarts()
    ensures Frames.Placed(Adrift().sz, Adrift().snakes) && Frames.Stocked(Adrift()) && |Adrift().rabbits| == 10
    ensures forall k :: 0 <= k < 10 ==> Ai.Lost(Adrift().sz, Adrift().rabbits[k], Coord(2, 2))
  {
    forall k | 0 <= k < 10 ensures Frames.PutFree(Adrift(), k) {
    }
  }

  lemma AdriftCovers()
    ensures forall e :: Covered(Adrift().snakes, Step(Adrift().sz, Coord(2, 2), e)) <==> e == Up || e == Def
  {
    var w, head := Adrift(), Coord(2, 2);
    Ai.CellsAreCovered(w.snakes, 0, 0);
    Ai.CellsAreCovered(w.snakes, 1, 0);
    forall e ensures Covered(w.snakes, Step(w.sz, head, e)) <==> e == Up || e == Def {
      StepIs(w.sz, head, e);
    }
  }

  /** The start of a game where the default cell becomes the target, and so the computer crosses
      the border onto the other snake although its three other neighbours are free. */
  lemma GoesAstray(target: Coord)
    requires Ai.IsNearest(Adrift().rabbits, Coord(2, 2), 59, 19, target)
    ensures Frames.Placed(Adrift().sz, Adrift().snakes) && Frames.Stocked(Adrift()) && |Adrift().rabbits| == 10
    ensures var w := Adrift();
            var s, d := w.snakes[1], Ai.Chosen(w, Coord(2, 2), target);
            && s.body == [Coord(2, 2)] && target == Coord(0, 0)
            && d == Up && Ai.Lured(w, s.body[0], target, d) && Turn(s.prevD, d) == d
            && Covered(w.snakes, HeadAfter(w.sz, s, d))
            && (forall e :: e != Def && e != Up ==> !Covered(w.snakes, Step(w.sz, s.body[0], e)))
  {
    AdriftStarts();
    AdriftCovers();
    Ai.TargetIsListed(Adrift().sz, Adrift().rabbits, Coord(2, 2), target);
    Ai.PreferenceIsStraight(target, Coord(2, 2), 59, 19);
  }
}
