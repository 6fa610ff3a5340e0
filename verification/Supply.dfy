/** What a frame needs of rand, and no more: for every turn in which a rabbit is eaten, a draw that
    is accepted. Who moves where is settled by the control word, the snapshot and the board. */
module Supply {
  import opened Torus
  import Snakes
  import Board
  import Keys
  import Ai
  import Turns

  type World = Snakes.World

  /** The results of rand, the humans' key sets in order, the slots of all controllers' snakes,
      humans first, the control word, and whether the model is on pause. */
  datatype Script = Script(rand: nat -> nat, keys: seq<Keys.KeySet>, slots: seq<nat>, ctrl: bv16, paused: bool)

  /** The computer player of snake i may ask for direction d. */
  ghost predicate Picks(seen: World, w: World, i: nat, paused: bool, d: Dir)
    requires Snakes.Movable(w, i) && Playable(seen.sz)
  {
    if paused then d == Def
    else exists target :: ChoosesFor(seen, w, i, target, d)
  }

  ghost predicate ChoosesFor(seen: World, w: World, i: nat, target: Coord, d: Dir)
    requires Snakes.Movable(w, i) && Playable(seen.sz)
  {
    var head := w.snakes[i].body[0];
    Ai.IsNearest(w.rabbits, head, w.sz.rows - 1, w.sz.cols - 1, target) && d == Ai.Chosen(seen, head, target)
  }

  /** From `turn` on, where it is a computer player's: w is the board, pos the position in the
      stream, and `seen` the snapshot. */
  ghost predicate AiSupply(p: Script, seen: World, w: World, pos: nat, turn: nat)
    decreases |p.slots| - turn
  {
    turn < |p.slots| ==>
      var i := p.slots[turn];
      && Playable(w.sz) && Playable(seen.sz) && Snakes.Movable(w, i)
      && if !w.snakes[i].alive then AiSupply(p, seen, w, pos, turn + 1)
         else forall d :: Picks(seen, w, i, p.paused, d) ==>
                && Board.CanFeed(p.rand, w, pos, i, d)
                && AiSupply(p, seen, Snakes.Moved(w, i, d, Board.FedCell(p.rand, w, pos, i, d)),
                            Board.FedPos(p.rand, w, pos, i, d), turn + 1)
  }

  /** From `turn` on, humans first. The snapshot is `seen` or, if taken late, the board after the
      humans' turns. */
  ghost predicate HumanSupply(p: Script, late: bool, seen: World, w: World, pos: nat, turn: nat)
    requires |p.keys| <= |p.slots|
    decreases |p.keys| - turn
  {
    if turn >= |p.keys| then AiSupply(p, if late then w else seen, w, pos, |p.keys|)
    else
      var i, r := p.slots[turn], Keys.Requested(p.keys[turn], p.ctrl);
      && Playable(w.sz) && Snakes.Movable(w, i)
      && if r.Pause? || !w.snakes[i].alive then HumanSupply(p, late, seen, w, pos, turn + 1)
         else
           && Board.CanFeed(p.rand, w, pos, i, r.d)
           && HumanSupply(p, late, seen, Snakes.Moved(w, i, r.d, Board.FedCell(p.rand, w, pos, i, r.d)),
                          Board.FedPos(p.rand, w, pos, i, r.d), turn + 1)
  }

  // ----- turn by turn -----

  /** AiSupply; quantified, so that its recursion is unfolded only in the lemmas of this module. */
  ghost predicate AisFed(p: Script, seen: World, w: World, pos: nat, turn: nat) {
    forall t :: t == turn ==> AiSupply(p, seen, w, pos, t)
  }

  /** HumanSupply, likewise. */
  ghost predicate HumansFed(p: Script, late: bool, seen: World, w: World, pos: nat, turn: nat)
    requires |p.keys| <= |p.slots|
  {
    forall t :: t == turn ==> HumanSupply(p, late, seen, w, pos, t)
  }

  /** A human's turn uses up its part. */
  lemma HumanStep(p: Script, late: bool, seen: World, w: World, pos: nat, turn: nat)
    requires turn < |p.keys| <= |p.slots| && HumansFed(p, late, seen, w, pos, turn)
    ensures var i, r := p.slots[turn], Keys.Requested(p.keys[turn], p.ctrl);
            && Playable(w.sz) && Snakes.Movable(w, i)
            && (r.Pause? || !w.snakes[i].alive ==> HumansFed(p, late, seen, w, pos, turn + 1))
            && (!r.Pause? && w.snakes[i].alive ==>
                  && Board.CanFeed(p.rand, w, pos, i, r.d)
                  && HumansFed(p, late, seen, Snakes.Moved(w, i, r.d, Board.FedCell(p.rand, w, pos, i, r.d)),
                               Board.FedPos(p.rand, w, pos, i, r.d), turn + 1))
  {
    assert HumanSupply(p, late, seen, w, pos, turn);
  }

  /** When all humans have had their turn the computer players follow. */
  lemma HumansDone(p: Script, late: bool, seen: World, w: World, pos: nat)
    requires |p.keys| <= |p.slots| && HumansFed(p, late, seen, w, pos, |p.keys|)
    ensures AisFed(p, if late then w else seen, w, pos, |p.keys|)
  {
    assert HumanSupply(p, late, seen, w, pos, |p.keys|);
  }

  /** A computer player's turn: what it needs, whatever it may pick, and what is left then. */
  lemma AiReady(p: Script, seen: World, w: World, pos: nat, turn: nat)
    requires turn < |p.slots| && AisFed(p, seen, w, pos, turn)
    ensures var i := p.slots[turn];
            && Playable(w.sz) && Playable(seen.sz) && Snakes.Movable(w, i)
            && (w.snakes[i].alive ==>
                  forall d :: Picks(seen, w, i, p.paused, d) ==> Board.CanFeed(p.rand, w, pos, i, d))
  {
    assert AiSupply(p, seen, w, pos, turn);
  }

  lemma AiStep(p: Script, seen: World, w: World, pos: nat, turn: nat, d: Dir)
    requires turn < |p.slots| && AisFed(p, seen, w, pos, turn)
    ensures var i := p.slots[turn];
            && Playable(w.sz) && Playable(seen.sz) && Snakes.Movable(w, i)
            && (!w.snakes[i].alive ==> AisFed(p, seen, w, pos, turn + 1))
            && (w.snakes[i].alive && Picks(seen, w, i, p.paused, d) ==>
                  && Board.CanFeed(p.rand, w, pos, i, d)
                  && AisFed(p, seen, Snakes.Moved(w, i, d, Board.FedCell(p.rand, w, pos, i, d)),
                            Board.FedPos(p.rand, w, pos, i, d), turn + 1))
  {
    assert AiSupply(p, seen, w, pos, turn);
  }

  lemma ReturnIsFor(field: Ai.Matrix, seen: World, w: World, i: nat, target: Coord, p: Ai.Permits, d: Dir)
    requires Ai.Shows(field, seen) && Snakes.WorldOk(seen) && seen.sz == w.sz
    requires Snakes.Movable(w, i) && OnBoard(w.sz, w.snakes[i].body[0])
    requires Ai.Returns(field, w.rabbits, w.snakes[i].body[0], target, p, d)
    ensures ChoosesFor(seen, w, i, target, d)
  {
    Ai.ChoiceIsChosen(field, seen, w.snakes[i].body[0], target, p);
  }

  /** What calcNextStep may return is a pick. */
  lemma ReturnIsPicked(field: Ai.Matrix, seen: World, w: World, i: nat, paused: bool, d: Dir)
    requires Ai.Shows(field, seen) && Snakes.WorldOk(seen) && seen.sz == w.sz
    requires Snakes.Movable(w, i) && OnBoard(w.sz, w.snakes[i].body[0])
    requires Ai.MayReturn(field, w.rabbits, w.snakes[i].body[0], paused, d)
    ensures Picks(seen, w, i, paused, d)
  {
    if !paused {
      var target, p :| Ai.Returns(field, w.rabbits, w.snakes[i].body[0], target, p, d);
      ReturnIsFor(field, seen, w, i, target, p, d);
    }
  }

  // ----- what the turns so far have done -----

  /** The first controller that moves a snake: in a pause that was asked for, the humans do not. */
  function FirstMover(p: Script): nat {
    if p.ctrl & Keys.PAUSE_BIT != 0 then |p.keys| else 0
  }

  /** The alive snakes of all controllers that have had their turn have moved, in order. */
  ghost predicate Ordered(p: Script, w0: World, acts: seq<Snakes.Act>, turn: nat) {
    forall t :: t == turn ==> Turns.InOrder(w0, acts, p.slots, FirstMover(p), t)
  }

  lemma OrderedIs(p: Script, w0: World, acts: seq<Snakes.Act>, turn: nat)
    requires Ordered(p, w0, acts, turn)
    ensures Turns.InOrder(w0, acts, p.slots, FirstMover(p), turn)
  {
  }

  lemma OrderedStart(p: Script, w0: World)
    requires forall j :: 0 <= j < |p.slots| ==> p.slots[j] < |w0.snakes|
    ensures Ordered(p, w0, [], 0)
  {
  }

  lemma OrderedNext(p: Script, w0: World, acts: seq<Snakes.Act>, turn: nat, moved: bool, d: Dir, cell: Coord)
    requires Ordered(p, w0, acts, turn) && turn < |p.slots|
    requires moved <==> turn >= FirstMover(p) && p.slots[turn] < |w0.snakes| && w0.snakes[p.slots[turn]].alive
    ensures Ordered(p, w0, if moved then acts + [Snakes.Move(p.slots[turn], d, cell)] else acts, turn + 1)
  {
    OrderedIs(p, w0, acts, turn);
    Turns.InOrderNext(w0, acts, p.slots, FirstMover(p), turn, moved, d, cell);
  }

  /** Move k of a frame that began with w0 was a computer player's pick, for the snapshot and for
      the rabbits that were there when its turn came. */
  ghost predicate PickedAt(seen: World, w0: World, acts: seq<Snakes.Act>, k: nat, paused: bool) {
    forall n :: n == k ==> IsPick(seen, w0, acts, n, paused)
  }

  ghost predicate IsPick(seen: World, w0: World, acts: seq<Snakes.Act>, k: nat, paused: bool) {
    && k < |acts| && acts[k].Move? && Snakes.Legal(w0, acts[..k]) && Playable(seen.sz)
    && var w := Snakes.After(w0, acts[..k]);
       Snakes.Movable(w, acts[k].i) && Picks(seen, w, acts[k].i, paused, acts[k].d)
  }

  lemma PickedLast(seen: World, w0: World, acts: seq<Snakes.Act>, w: World, a: Snakes.Act, paused: bool)
    requires Snakes.Legal(w0, acts) && Snakes.After(w0, acts) == w && a.Move? && Playable(seen.sz)
    requires Snakes.Movable(w, a.i) && Picks(seen, w, a.i, paused, a.d)
    ensures PickedAt(seen, w0, acts + [a], |acts|, paused)
  {
    assert (acts + [a])[..|acts|] == acts;
    assert IsPick(seen, w0, acts + [a], |acts|, paused);
  }

  lemma PickedStays(seen: World, w0: World, acts: seq<Snakes.Act>, a: Snakes.Act, k: nat, paused: bool)
    requires PickedAt(seen, w0, acts, k, paused)
    ensures PickedAt(seen, w0, acts + [a], k, paused)
  {
    assert IsPick(seen, w0, acts, k, paused);
    assert (acts + [a])[..k] == acts[..k];
  }

  /** What a computer player's turn does to the board and to the position in the stream. */
  ghost predicate AiMoved(p: Script, seen: World, w: World, pos: nat, w': World, pos': nat,
                          i: nat, alive: bool, d: Dir, cell: Coord) {
    && Snakes.Movable(w, i) && Playable(w.sz) && Playable(seen.sz) && alive == w.snakes[i].alive
    && if alive then
         && Picks(seen, w, i, p.paused, d) && Board.CanFeed(p.rand, w, pos, i, d)
         && cell == Board.FedCell(p.rand, w, pos, i, d)
         && w' == Snakes.Moved(w, i, d, cell) && pos' == Board.FedPos(p.rand, w, pos, i, d)
       else w' == w && pos' == pos
  }

  /** A computer player's turn, with a move if its snake is alive: everything is kept. */
  lemma AiTurnTaken(p: Script, seen: World, w0: World, acts: seq<Snakes.Act>, w: World, pos: nat,
                    w': World, pos': nat, turn: nat, alive: bool, d: Dir, cell: Coord)
    returns (acts': seq<Snakes.Act>)
    requires Turns.UpTo(w0, acts, w, p.slots, turn) && |p.keys| <= turn < |p.slots|
    requires forall j, k :: 0 <= j < k < |p.slots| ==> p.slots[j] != p.slots[k]
    requires Turns.Waiting(seen, w, p.slots, turn) && AisFed(p, seen, w, pos, turn) && Ordered(p, w0, acts, turn)
    requires AiMoved(p, seen, w, pos, w', pos', p.slots[turn], alive, d, cell)
    ensures Turns.UpTo(w0, acts', w', p.slots, turn + 1) && Turns.Waiting(seen, w', p.slots, turn + 1)
    ensures AisFed(p, seen, w', pos', turn + 1) && Ordered(p, w0, acts', turn + 1)
    ensures acts' == if alive then acts + [Snakes.Move(p.slots[turn], d, cell)] else acts
    ensures alive ==> PickedAt(seen, w0, acts', |acts|, p.paused)
  {
    acts' := Turns.TurnTaken(w0, acts, w, w', p.slots, turn, alive, d, cell);
    Turns.WaitingNext(seen, w, w', p.slots, turn, alive, d, cell);
    AiStep(p, seen, w, pos, turn, d);
    OrderedNext(p, w0, acts, turn, alive, d, cell);
    if alive {
      PickedLast(seen, w0, acts, w, Snakes.Move(p.slots[turn], d, cell), p.paused);
    }
  }

  // ----- where there is room, a rand that draws every cell is enough -----

  ghost predicate Roomy(p: Script, w: World, turn: nat) {
    && turn <= |p.slots| && Snakes.WorldOk(w) && Board.Fair(p.rand, w.sz)
    && Turns.Budget(w, |p.slots| - turn)
    && forall j :: 0 <= j < |p.slots| ==> p.slots[j] < |w.snakes|
  }

  lemma RoomyFeeds(p: Script, w: World, pos: nat, turn: nat, d: Dir)
    requires Roomy(p, w, turn) && turn < |p.slots|
    ensures var i := p.slots[turn];
            && Snakes.Movable(w, i) && Board.CanFeed(p.rand, w, pos, i, d)
            && Roomy(p, Snakes.Moved(w, i, d, Board.FedCell(p.rand, w, pos, i, d)), turn + 1)
  {
    var i := p.slots[turn];
    assert Snakes.SnakeOk(w.sz, w.snakes[i]);
    if Snakes.Eats(w, i, d) {
      Board.MoveTakesRoom(w, i, d, Coord(0, 0));
      Board.AcceptingDraw(p.rand, Snakes.Eaten(w, i, d), pos);
    }
    var cell := Board.FedCell(p.rand, w, pos, i, d);
    Snakes.MoveKeepsWorldOk(w, i, d, cell);
    Turns.BudgetNext(w, |p.slots| - turn - 1, i, d, cell);
  }

  lemma {:induction false} FairAiSupply(p: Script, seen: World, w: World, pos: nat, turn: nat)
    requires Roomy(p, w, turn) && Playable(seen.sz)
    ensures AiSupply(p, seen, w, pos, turn)
    decreases |p.slots| - turn
  {
    if turn < |p.slots| {
      var i := p.slots[turn];
      RoomyFeeds(p, w, pos, turn, Def);
      if !w.snakes[i].alive {
        FairAiSupply(p, seen, w, pos, turn + 1);
      }
      forall d
        ensures Board.CanFeed(p.rand, w, pos, i, d)
        ensures w.snakes[i].alive ==>
                  AiSupply(p, seen, Snakes.Moved(w, i, d, Board.FedCell(p.rand, w, pos, i, d)),
                           Board.FedPos(p.rand, w, pos, i, d), turn + 1)
      {
        RoomyFeeds(p, w, pos, turn, d);
        FairAiSupply(p, seen, Snakes.Moved(w, i, d, Board.FedCell(p.rand, w, pos, i, d)),
                     Board.FedPos(p.rand, w, pos, i, d), turn + 1);
      }
    }
  }

  /** With room for as many rabbits as there are controllers, a rand that draws every cell
      sometime supplies the frame. */
  lemma {:induction false} FairSupply(p: Script, late: bool, seen: World, w: World, pos: nat, turn: nat)
    requires Roomy(p, w, turn) && turn <= |p.keys| <= |p.slots| && Playable(seen.sz)
    ensures HumanSupply(p, late, seen, w, pos, turn)
    decreases |p.keys| - turn
  {
    if turn == |p.keys| {
      FairAiSupply(p, if late then w else seen, w, pos, turn);
    } else {
      var i, r := p.slots[turn], Keys.Requested(p.keys[turn], p.ctrl);
      RoomyFeeds(p, w, pos, turn, Def);
      if r.Pause? || !w.snakes[i].alive {
        FairSupply(p, late, seen, w, pos, turn + 1);
      } else {
        RoomyFeeds(p, w, pos, turn, r.d);
        FairSupply(p, late, seen, Snakes.Moved(w, i, r.d, Board.FedCell(p.rand, w, pos, i, r.d)),
                   Board.FedPos(p.rand, w, pos, i, r.d), turn + 1);
      }
    }
  }
}
