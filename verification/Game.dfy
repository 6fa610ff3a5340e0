/** The objects of the game that are changed in place: the snakes and the model. */
module Game {
  import opened Torus
  import Snakes
  import Frames
  import Board

  type World = Snakes.World

  class Serpent {
    var c: seq<Coord>
    var prevD: Dir
    var status: bool

    constructor (cell: Coord)
      ensures Value() == Snakes.Snake([cell], Right, true)
    {
      c, prevD, status := [cell], Right, true;
    }

    ghost function Value(): Snakes.Snake
      reads this
    {
      Snakes.Snake(c, prevD, status)
    }

    /** The first half of Snake::move: choose the direction, put the new head in front. */
    method PushHead(sz: Size, d: Dir)
      requires Playable(sz) && c != []
      modifies this`c, this`prevD
      ensures Value() == Snakes.MovedSnake(sz, old(Value()), d, true)
    {
      var turn := d;
      if turn == Def { turn := prevD; }
      if turn.Value() == -prevD.Value() { turn := prevD; }
      var head := c[0];
      prevD := turn;
      c := [Step(sz, head, turn)] + c;
    }

    /** Snake::move. Snake i of the model takes a step; `cell` is where a new rabbit appeared. */
    method Move(sz: Size, model: Model, d: Dir, ghost i: nat) returns (ghost cell: Coord)
      requires model.Owns(this, i) && sz == model.sz && Playable(sz) && c != []
      requires model.Supplied(i, d)
      modifies this, model`rabbits, model`drawn
      ensures cell == Board.FedCell(model.rand, old(model.World()), old(model.drawn), i, d)
      ensures model.World() == Snakes.Moved(old(model.World()), i, d, cell)
      ensures model.drawn == Board.FedPos(model.rand, old(model.World()), old(model.drawn), i, d)
    {
      ghost var w := model.World();
      cell := Coord(0, 0);
      PushHead(sz, d);
      assert model.World() == w.(snakes := w.snakes[i := Snakes.MovedSnake(sz, w.snakes[i], d, true)]);
      var r := model.FindRabbit(c[0]);
      if r < |model.rabbits| {
        WithoutAt(w.rabbits, c[0], r);
        EatenIs(w, i, d, model.World(), r);
        cell := model.ReplaceRabbit(r, Snakes.Eaten(w, i, d));
        MovedFed(w, i, d, cell);
        return;
      }
      c := c[..|c| - 1];
      assert c == Snakes.MovedSnake(sz, w.snakes[i], d, false).body;
      assert model.World().snakes == w.snakes[i := Snakes.MovedSnake(sz, w.snakes[i], d, false)];
      MovedPlain(w, i, d, cell);
    }

    /** Snake::cutIfBump: true if the head is on another snake; the own body is cut when its
        turn comes before such a hit. */
    method CutIfBump(model: Model, ghost i: nat) returns (bumped: bool)
      requires model.Owns(this, i) && c != []
      modifies this`c
      ensures (bumped, c) == Snakes.CutIfBump(old(model.World().snakes), i)
    {
      ghost var s := model.World().snakes;
      var head := c[0];
      var j := 0;
      while j < |model.snakes|
        invariant 0 <= j <= |model.snakes|
        invariant c != [] && c[0] == head && c == if j <= i then s[i].body else Snakes.Cut(s[i].body)
        invariant !Snakes.Hits(s, i, 0, j)
      {
        if model.snakes[j] == this {
          assert j == i;
          var k := 1;
          while k < |c|
            invariant 1 <= k <= |c| && c == s[i].body && head !in c[1..k]
          {
            if c[k] == head {
              RepeatAt(c, 1, k);
              c := c[..k];
              break;
            }
            assert c[1..k + 1] == c[1..k] + [c[k]];
            k := k + 1;
          }
          assert c == Snakes.Cut(s[i].body) by {
            RepeatAt(s[i].body, 1, k);
          }
        } else {
          assert model.snakes[j].c == s[j].body;
          var k := 0;
          while k < |model.snakes[j].c|
            invariant 0 <= k <= |model.snakes[j].c| && head !in s[j].body[..k]
          {
            if model.snakes[j].c[k] == head {
              assert Snakes.Hits(s, i, if j < i then 0 else i, if j < i then i else |s|);
              return true;
            }
            assert s[j].body[..k + 1] == s[j].body[..k] + [s[j].body[k]];
            k := k + 1;
          }
          assert s[j].body[..|s[j].body|] == s[j].body;
        }
        j := j + 1;
      }
      return false;
    }
  }

  /** The board with the new head and without the rabbit under it. */
  lemma EatenIs(w: World, i: nat, d: Dir, mid: World, r: nat)
    requires Snakes.Movable(w, i) && Snakes.Eats(w, i, d) && r < |w.rabbits|
    requires mid == w.(snakes := w.snakes[i := Snakes.MovedSnake(w.sz, w.snakes[i], d, true)])
    requires Snakes.Without(w.rabbits, Snakes.HeadAfter(w.sz, w.snakes[i], d)) == w.rabbits[..r] + w.rabbits[r + 1..]
    ensures Snakes.Eaten(w, i, d) == mid.(rabbits := w.rabbits[..r] + w.rabbits[r + 1..])
  {
  }

  lemma MovedFed(w: World, i: nat, d: Dir, cell: Coord)
    requires Snakes.Movable(w, i) && Snakes.Eats(w, i, d) && Snakes.Free(Snakes.Eaten(w, i, d), cell)
    ensures Snakes.CanMove(w, i, d, cell)
    ensures var e := Snakes.Eaten(w, i, d);
            Snakes.Moved(w, i, d, cell) == e.(rabbits := e.rabbits + [cell])
  {
  }

  lemma MovedPlain(w: World, i: nat, d: Dir, cell: Coord)
    requires Snakes.Movable(w, i) && !Snakes.Eats(w, i, d)
    ensures Snakes.CanMove(w, i, d, cell)
    ensures Snakes.Moved(w, i, d, cell) ==
            w.(snakes := w.snakes[i := Snakes.MovedSnake(w.sz, w.snakes[i], d, false)])
  {
  }

  /** The first rabbit on a cell is the one that the loop removes. */
  lemma {:induction false} WithoutAt(rabbits: seq<Coord>, c: Coord, r: nat)
    requires r < |rabbits| && rabbits[r] == c && c !in rabbits[..r]
    ensures Snakes.Without(rabbits, c) == rabbits[..r] + rabbits[r + 1..]
  {
    if r > 0 {
      assert rabbits[0] == rabbits[..r][0];
      assert rabbits[1..][..r - 1] == rabbits[..r][1..];
      WithoutAt(rabbits[1..], c, r - 1);
    }
  }

  lemma {:induction false} RepeatAt(body: seq<Coord>, j: nat, k: nat)
    requires 1 <= j <= k <= |body| && body[0] !in body[j..k] && (k < |body| ==> body[k] == body[0])
    ensures Snakes.FirstRepeat(body, j) == k
    decreases k - j
  {
    if j < k {
      assert body[j] == body[j..k][0];
      assert body[j + 1..k] == body[j..k][1..];
      RepeatAt(body, j + 1, k);
    }
  }

  class Model {
    var snakes: seq<Serpent>
    var rabbits: seq<Coord>
    var sz: Size
    var isOnPause: bool
    const rand: nat -> nat  // the results of std::rand
    var drawn: nat          // how many of them have been used

    ghost predicate Valid()
      reads this
    {
      forall i, j :: 0 <= i < j < |snakes| ==> snakes[i] != snakes[j]
    }

    ghost predicate Owns(s: Serpent, i: nat)
      reads this
    {
      Valid() && i < |snakes| && snakes[i] == s
    }

    ghost predicate Supplied(i: nat, d: Dir)
      requires Playable(sz) && i < |snakes| && snakes[i].c != []
      reads this, snakes
    {
      Board.CanFeed(rand, World(), drawn, i, d)
    }

    ghost function World(): World
      reads this, snakes
    {
      Snakes.World(sz, seq(|snakes|, i requires 0 <= i < |snakes| reads this, snakes => snakes[i].Value()), rabbits)
    }

    constructor (sz: Size, rand: nat -> nat)
      ensures snakes == [] && rabbits == [] && !isOnPause && this.sz == sz && this.rand == rand
    {
      snakes, rabbits, isOnPause := [], [], false;
      this.sz, this.rand, drawn := sz, rand, 0;
    }

    method CreateSnake(cell: Coord) returns (s: Serpent)
      requires Valid()
      modifies this`snakes
      ensures Valid() && fresh(s) && snakes == old(snakes) + [s]
      ensures World() == old(World()).(snakes := old(World()).snakes + [Snakes.Snake([cell], Right, true)])
    {
      s := new Serpent(cell);
      snakes := snakes + [s];
    }

    /** The loop of Snake::move that looks for a rabbit under the head. */
    method FindRabbit(head: Coord) returns (r: nat)
      ensures r <= |rabbits| && head !in rabbits[..r]
      ensures r < |rabbits| ==> rabbits[r] == head
      ensures r == |rabbits| <==> head !in rabbits
    {
      r := 0;
      while r < |rabbits|
        invariant r <= |rabbits| && head !in rabbits[..r]
      {
        if head == rabbits[r] {
          return;
        }
        r := r + 1;
      }
      assert rabbits[..r] == rabbits;
    }

    method RemoveRabbit(r: nat)
      requires r < |rabbits|
      modifies this`rabbits
      ensures rabbits == old(rabbits[..r] + rabbits[r + 1..])
    {
      rabbits := rabbits[..r] + rabbits[r + 1..];
    }

    /** What Snake::move does with an eaten rabbit: removes it, which leads to the board e, and puts
        a new one there. */
    method ReplaceRabbit(r: nat, ghost e: World) returns (ghost cell: Coord)
      requires r < |rabbits| && Playable(sz) && e == World().(rabbits := rabbits[..r] + rabbits[r + 1..])
      requires Board.Accepting(rand, sz, drawn, Board.Busy(e))
      modifies this`rabbits, this`drawn
      ensures cell == Board.NextCell(rand, e, old(drawn))
      ensures World() == e.(rabbits := e.rabbits + [cell])
      ensures drawn == old(drawn) + Board.Used(rand, e, old(drawn))
    {
      RemoveRabbit(r);
      assert World() == e;
      cell := CreateRabbitRandom();
    }

    /** The cells of all snakes and rabbits. */
    method ListBusy() returns (busy: seq<Coord>)
      ensures busy == Board.Busy(World())
    {
      ghost var s := World().snakes;
      busy := [];
      for i := 0 to |snakes|
        invariant busy == Board.Cells(s[..i])
      {
        assert s[..i + 1][..i] == s[..i];
        ghost var before := busy;
        for k := 0 to |snakes[i].c|
          invariant busy == before + s[i].body[..k]
        {
          busy := busy + [snakes[i].c[k]];
        }
        assert s[i].body[..|s[i].body|] == s[i].body;
      }
      assert s[..|snakes|] == s;
      busy := busy + rabbits;
    }

    /** Model::createRabbitRandom: draws cells until one is not busy, and puts a rabbit there. */
    method CreateRabbitRandom() returns (ghost cell: Coord)
      requires Playable(sz) && Board.Accepting(rand, sz, drawn, Board.Busy(World()))
      modifies this`rabbits, this`drawn
      ensures cell == Board.NextCell(rand, old(World()), old(drawn))
      ensures World() == Board.OneMore(rand, old(World()), old(drawn))
      ensures drawn == old(drawn) + Board.Used(rand, old(World()), old(drawn))
      ensures Snakes.Free(old(World()), cell) && rabbits == old(rabbits) + [cell]
    {
      ghost var w := World();
      var busy := ListBusy();
      var newCoord := DrawCell(busy);
      Board.FreeIsNotBusy(w, newCoord);
      rabbits := rabbits + [newCoord];
      cell := newCoord;
    }

    /** One turn of the views' loop that stocks the board; `more` rabbits are still to come. */
    method StockOne(ghost more: nat) returns (ghost cell: Coord)
      requires Playable(sz) && Board.CanStock(rand, World(), drawn, more + 1)
      modifies this`rabbits, this`drawn
      ensures Snakes.Free(old(World()), cell)
      ensures World() == old(World()).(rabbits := old(rabbits) + [cell])
      ensures Board.CanStock(rand, World(), drawn, more)
    {
      cell := CreateRabbitRandom();
    }

    /** What the views do before their first frame: put `count` rabbits on the board. */
    method Stock(count: nat)
      requires Playable(sz) && rabbits == [] && Board.CanStock(rand, World(), drawn, count)
      modifies this`rabbits, this`drawn
      ensures |rabbits| == count && Frames.Stocked(World())
      ensures World().snakes == old(World().snakes)
    {
      ghost var w, left := World(), count;
      for k := 0 to count
        invariant |rabbits| == k && left == count - k && Frames.Stocked(w)
        invariant World() == w && w.snakes == old(World().snakes)
        invariant Board.CanStock(rand, w, drawn, left)
      {
        left := left - 1;
        ghost var cell := StockOne(left);
        StockedNext(w, cell);
        w := w.(rabbits := w.rabbits + [cell]);
      }
    }

    /** The scan of the listed cells for a drawn one. */
    static method IsBusy(busy: seq<Coord>, cell: Coord) returns (isBusy: bool)
      ensures isBusy <==> cell in busy
    {
      isBusy := false;
      for i := 0 to |busy|
        invariant isBusy <==> cell in busy[..i]
      {
        if cell == busy[i] { isBusy := true; }
      }
      assert busy[..|busy|] == busy;
    }

    /** The loop of createRabbitRandom: the first of the drawn cells that is not busy. */
    method DrawCell(busy: seq<Coord>) returns (newCoord: Coord)
      requires Playable(sz) && Board.Accepting(rand, sz, drawn, busy)
      modifies this`drawn
      ensures Snakes.InDrawRange(sz, newCoord) && newCoord !in busy
      ensures var k := Board.FirstDraw(rand, sz, old(drawn), busy);
              newCoord == Board.DrawAt(rand, sz, old(drawn), k) && drawn == old(drawn) + 2 * k + 2
    {
      ghost var start := drawn;
      ghost var last := Board.FirstDraw(rand, sz, drawn, busy);
      ghost var tries: nat := 0;
      var isBusy := true;
      newCoord := Coord(0, 0);
      while isBusy
        invariant drawn == start + 2 * tries
        invariant if isBusy then tries <= last
                  else tries == last + 1 && newCoord == Board.DrawAt(rand, sz, start, last)
        decreases isBusy, last - tries
      {
        newCoord := Board.Drawn(rand, sz, drawn);
        assert newCoord == Board.DrawAt(rand, sz, start, tries);
        drawn := drawn + 2;
        tries := tries + 1;
        isBusy := IsBusy(busy, newCoord);
      }
    }
  }

  lemma StockedNext(w: World, cell: Coord)
    requires Frames.Stocked(w) && Snakes.Free(w, cell)
    ensures Frames.Stocked(w.(rabbits := w.rabbits + [cell]))
  {
    var w' := w.(rabbits := w.rabbits + [cell]);
    forall k | 0 <= k < |w'.rabbits|
      ensures Frames.PutFree(w', k)
    {
      if k < |w.rabbits| {
        assert w'.rabbits[..k] == w.rabbits[..k];
        assert Frames.PutFree(w, k);
      } else {
        assert w'.rabbits[..k] == w.rabbits;
      }
    }
  }
}
