/** The controllers: a human's, which reads the control word, and the computer's, which reads a
    snapshot of the board. */
module Controllers {
  import opened Torus
  import Snakes
  import Board
  import Keys
  import Ai
  import opened Game

  class Human {
    const keyset: Keys.KeySet
    const snake: Serpent

    constructor (keyset: Keys.KeySet, snake: Serpent)
      ensures this.keyset == keyset && this.snake == snake
    {
      this.keyset, this.snake := keyset, snake;
    }

    /** Human::fonKey: 1 if the word asks for a pause, else the snake moves if it is alive. */
    method FonKey(model: Model, ctrl: bv16, ghost i: nat) returns (r: int, ghost cell: Coord)
      requires model.Owns(snake, i) && Playable(model.sz) && snake.c != []
      requires snake.status && Keys.Requested(keyset, ctrl).Go? ==>
                 model.Supplied(i, Keys.Requested(keyset, ctrl).d)
      modifies snake, model`rabbits, model`drawn
      ensures r == if Keys.Requested(keyset, ctrl).Pause? then 1 else 0
      ensures r == 1 || !old(snake.status) ==> model.World() == old(model.World()) && model.drawn == old(model.drawn)
      ensures r == 0 && old(snake.status) ==>
                var d := Keys.Requested(keyset, ctrl).d;
                && cell == Board.FedCell(model.rand, old(model.World()), old(model.drawn), i, d)
                && model.World() == Snakes.Moved(old(model.World()), i, d, cell)
                && model.drawn == Board.FedPos(model.rand, old(model.World()), old(model.drawn), i, d)
    {
      cell := Coord(0, 0);
      if ctrl & Keys.PAUSE_BIT != 0 {
        return 1, cell;
      }
      if !snake.status {
        return 0, cell;
      }
      if keyset == Keys.Wasd {
        if ctrl & Keys.WASD_UP != 0 {
          cell := snake.Move(model.sz, model, Up, i);
          return 0, cell;
        } else if ctrl & Keys.WASD_DOWN != 0 {
          cell := snake.Move(model.sz, model, Down, i);
          return 0, cell;
        } else if ctrl & Keys.WASD_LEFT != 0 {
          cell := snake.Move(model.sz, model, Left, i);
          return 0, cell;
        } else if ctrl & Keys.WASD_RIGHT != 0 {
          cell := snake.Move(model.sz, model, Right, i);
          return 0, cell;
        }
      } else {
        if ctrl & Keys.ARROW_UP != 0 {
          cell := snake.Move(model.sz, model, Up, i);
          return 0, cell;
        } else if ctrl & Keys.ARROW_DOWN != 0 {
          cell := snake.Move(model.sz, model, Down, i);
          return 0, cell;
        } else if ctrl & Keys.ARROW_LEFT != 0 {
          cell := snake.Move(model.sz, model, Left, i);
          return 0, cell;
        } else if ctrl & Keys.ARROW_RIGHT != 0 {
          cell := snake.Move(model.sz, model, Right, i);
          return 0, cell;
        }
      }
      cell := snake.Move(model.sz, model, Def, i);
      return 0, cell;
    }
  }

  /** The snake at slot i has not moved since the snapshot w was taken. */
  ghost predicate AsIn(w: World, i: nat, s: Snakes.Snake) {
    Snakes.WorldOk(w) && i < |w.snakes| && w.snakes[i] == s
  }

  /** The computer's direction d is the one for the rabbit of least metric, read off the snapshot. */
  ghost predicate Picked(w: World, i: nat, s: Snakes.Snake, rabbits: seq<Coord>, target: Coord, d: Dir) {
    AsIn(w, i, s) ==>
      && Ai.IsNearest(rabbits, s.body[0], w.sz.rows - 1, w.sz.cols - 1, target)
      && d == Ai.Chosen(w, s.body[0], target)
  }

  /** Safety of the direction d for the snapshot w. */
  ghost predicate SafeChoice(w: World, i: nat, s: Snakes.Snake, d: Dir) {
    AsIn(w, i, s) && |s.body| >= 2 && Ai.OffBorder(w.sz, s.body[0]) ==>
      && (d == Def <==> forall e :: e != Def ==> Snakes.Covered(w.snakes, Step(w.sz, s.body[0], e)))
      && (d != Def ==> Turn(s, d) && !Snakes.Covered(w.snakes, Snakes.HeadAfter(w.sz, s, d)))
  }

  /** Progress: unless it is hindered, the move is safe and comes one closer to the target. */
  ghost predicate Nears(w: World, i: nat, s: Snakes.Snake, target: Coord, d: Dir) {
    AsIn(w, i, s) && |s.body| >= 2 && OnBoard(w.sz, target) && !Ai.Hindered(w, s.body[0], target) ==>
      var head' := Snakes.HeadAfter(w.sz, s, d);
      && d != Def && Turn(s, d) && !Snakes.Covered(w.snakes, head')
      && Ai.Manhattan(head', target) == Ai.Manhattan(s.body[0], target) - 1
  }

  ghost predicate Turn(s: Snakes.Snake, d: Dir) {
    Snakes.Turn(s.prevD, d) == d
  }

  lemma PickedIsGood(w: World, i: nat, s: Snakes.Snake, rabbits: seq<Coord>, target: Coord, d: Dir)
    requires Picked(w, i, s, rabbits, target, d)
    ensures SafeChoice(w, i, s, d) && Nears(w, i, s, target, d)
  {
    if AsIn(w, i, s) && |s.body| >= 2 {
      if Ai.OffBorder(w.sz, s.body[0]) { Ai.AiIsSafe(w, i, target); }
      if OnBoard(w.sz, target) && !Ai.Hindered(w, s.body[0], target) { Ai.AiApproaches(w, i, target); }
    }
  }

  /** The move of a computer player was a safe choice for the snapshot w. */
  ghost predicate SafeMove(w: World, a: Snakes.Act) {
    a.Move? && a.i < |w.snakes| && SafeChoice(w, a.i, w.snakes[a.i], a.d)
  }

  lemma SafeMoveIs(w: World, i: nat, s: Snakes.Snake, d: Dir, cell: Coord)
    requires i < |w.snakes| && w.snakes[i] == s && SafeChoice(w, i, s, d)
    ensures SafeMove(w, Snakes.Move(i, d, cell))
  {
  }

  class AI {
    const snake: Serpent

    constructor (snake: Serpent)
      ensures this.snake == snake
    {
      this.snake := snake;
    }

    /** AI::calcNextStep for this snake, with the snapshot of some earlier world w. */
    method NextStep(model: Model, field: Ai.Matrix, ghost i: nat, ghost w: World) returns (d: Dir, ghost target: Coord)
      requires snake.c != [] && OnBoard(model.sz, snake.c[0]) && snake.status && Ai.Shows(field, w)
      ensures Ai.MayReturn(field, model.rabbits, snake.c[0], model.isOnPause, d)
      ensures !model.isOnPause ==>
                && Picked(w, i, snake.Value(), model.rabbits, target, d)
                && SafeChoice(w, i, snake.Value(), d)
                && Nears(w, i, snake.Value(), target, d)
    {
      ghost var p: Ai.Permits;
      d, target, p := Ai.CalcNextStep(field, model.rabbits, snake.c[0], snake.status, model.isOnPause);
      Ai.MayReturnIs(field, model.rabbits, snake.c[0], model.isOnPause, target, p, d);
      if !model.isOnPause {
        ReturnIsGood(field, w, i, snake.Value(), model.rabbits, target, p, d);
      }
    }

    /** AI::fonKey: an alive snake moves in the direction calcNextStep chooses from the field,
        the snapshot of some earlier world w. */
    method FonKey(model: Model, field: Ai.Matrix, ghost i: nat, ghost w: World)
      returns (r: int, ghost d: Dir, ghost cell: Coord, ghost target: Coord)
      requires model.Owns(snake, i) && Playable(model.sz) && snake.c != []
      requires OnBoard(model.sz, snake.c[0]) && Ai.Shows(field, w)
      requires snake.status ==>
                 forall e :: Ai.MayReturn(field, model.rabbits, snake.c[0], model.isOnPause, e) ==> model.Supplied(i, e)
      modifies snake, model`rabbits, model`drawn
      ensures r == 0
      ensures !old(snake.status) ==> model.World() == old(model.World()) && model.drawn == old(model.drawn)
      ensures old(snake.status) ==>
                && old(model.Supplied(i, d))
                && cell == Board.FedCell(model.rand, old(model.World()), old(model.drawn), i, d)
                && model.World() == Snakes.Moved(old(model.World()), i, d, cell)
                && model.drawn == Board.FedPos(model.rand, old(model.World()), old(model.drawn), i, d)
      ensures old(snake.status) ==> old(Ai.MayReturn(field, model.rabbits, snake.c[0], model.isOnPause, d))
      ensures old(snake.status) && !model.isOnPause ==>
                && Picked(w, i, old(snake.Value()), old(model.rabbits), target, d)
                && SafeChoice(w, i, old(snake.Value()), d)
                && Nears(w, i, old(snake.Value()), target, d)
    {
      cell, d, target := Coord(0, 0), Def, Coord(0, 0);
      if !snake.status {
        return 0, d, cell, target;
      }
      var choice;
      choice, target := NextStep(model, field, i, w);
      d := choice;
      cell := snake.Move(model.sz, model, choice, i);
      return 0, d, cell, target;
    }
  }

  /** What calcNextStep returns for a snapshot of w, if the snake has not moved since. */
  lemma ReturnIsGood(field: Ai.Matrix, w: World, i: nat, s: Snakes.Snake, rabbits: seq<Coord>,
                     target: Coord, p: Ai.Permits, d: Dir)
    requires Ai.Shows(field, w) && s.body != [] && s.body[0].first >= 2 && s.body[0].second >= 2
    requires Ai.Returns(field, rabbits, s.body[0], target, p, d)
    ensures Picked(w, i, s, rabbits, target, d) && SafeChoice(w, i, s, d) && Nears(w, i, s, target, d)
  {
    if AsIn(w, i, s) {
      Ai.ChoiceIsChosen(field, w, s.body[0], target, p);
    }
    PickedIsGood(w, i, s, rabbits, target, d);
  }

  /** The inner loop of AI::update: one snake's cells are marked S. */
  method MarkBody(field: Ai.Matrix, body: seq<Coord>, ghost cells: seq<Coord>)
    requires field.Valid() && Marked(field, cells, [])
    requires forall k :: 0 <= k < |body| ==> Inside(field, body[k])
    modifies field.buf
    ensures Marked(field, cells + body, [])
  {
    for k := 0 to |body|
      invariant Marked(field, cells + body[..k], [])
    {
      field.Set(body[k].first - 2, body[k].second - 2, Ai.S);
      MarkedNext(cells + body[..k], body[k]);
      assert cells + body[..k + 1] == cells + body[..k] + [body[k]];
    }
    assert body[..|body|] == body;
  }

  /** The second loop of AI::update: the rabbits' cells are marked R, whatever was there. */
  method MarkRabbits(field: Ai.Matrix, rabbits: seq<Coord>, ghost cells: seq<Coord>)
    requires field.Valid() && Marked(field, cells, [])
    requires forall k :: 0 <= k < |rabbits| ==> Inside(field, rabbits[k])
    modifies field.buf
    ensures Marked(field, cells, rabbits)
  {
    for r := 0 to |rabbits|
      invariant Marked(field, cells, rabbits[..r])
    {
      field.Set(rabbits[r].first - 2, rabbits[r].second - 2, Ai.R);
      MarkedNext(rabbits[..r], rabbits[r]);
      assert rabbits[..r + 1] == rabbits[..r] + [rabbits[r]];
    }
    assert rabbits[..|rabbits|] == rabbits;
  }

  /** AI::update: a fresh matrix with the snakes' cells and then the rabbits' cells marked. */
  method Update(model: Model) returns (field: Ai.Matrix)
    requires model.Valid() && Snakes.WorldOk(model.World())
    ensures fresh(field) && fresh(field.buf) && Ai.Shows(field, model.World())
  {
    ghost var w := model.World();
    field := new Ai.Matrix(model.sz.rows - 1, model.sz.cols - 1);
    for i := 0 to |model.snakes|
      invariant Marked(field, Board.Cells(w.snakes[..i]), [])
    {
      assert model.snakes[i].c == w.snakes[i].body;
      assert Snakes.SnakeOk(w.sz, w.snakes[i]);
      assert w.snakes[..i + 1][..i] == w.snakes[..i];
      MarkBody(field, model.snakes[i].c, Board.Cells(w.snakes[..i]));
    }
    assert w.snakes[..|w.snakes|] == w.snakes;
    MarkRabbits(field, model.rabbits, Board.Cells(w.snakes));
    MarkedShows(field, w);
  }

  /** Whether a cell has its place in the matrix. */
  predicate Inside(field: Ai.Matrix, c: Coord) {
    2 <= c.first < field.m + 2 && 2 <= c.second < field.n + 2
  }

  lemma MarkedShows(field: Ai.Matrix, w: World)
    requires field.Valid() && field.m == w.sz.rows - 1 && field.n == w.sz.cols - 1
    requires Marked(field, Board.Cells(w.snakes), w.rabbits)
    ensures Ai.Shows(field, w)
  {
    forall x, y | 0 <= x < field.m && 0 <= y < field.n ensures field.At(x, y) == Ai.Mark(w, x, y) {
      Board.CellsAreCovered(w.snakes, Coord(x + 2, y + 2));
    }
  }

  ghost predicate Marked(field: Ai.Matrix, cells: seq<Coord>, rabbits: seq<Coord>)
    requires field.Valid()
    reads field.buf
  {
    forall x, y :: 0 <= x < field.m && 0 <= y < field.n ==>
      field.At(x, y) ==
      if Coord(x + 2, y + 2) in rabbits then Ai.R else if Coord(x + 2, y + 2) in cells then Ai.S else 0
  }

  lemma MarkedNext(cells: seq<Coord>, c: Coord)
    ensures forall e :: e in cells + [c] <==> e in cells || e == c
  {
  }
}
