/** The frame loops of the two views. */
module Views {
  import opened Torus
  import Snakes
  import Frames
  import Board
  import Keys
  import Ai
  import opened Game
  import opened Controllers
  import opened Turns
  import opened Supply

  /** Snake i was asked to go where the word sends the player with key set k. */
  ghost predicate AskedBy(acts: seq<Act>, i: nat, k: Keys.KeySet, ctrl: bv16) {
    Keys.Requested(k, ctrl).Go? && Asked(acts, i, Keys.Requested(k, ctrl).d)
  }

  class View {
    const model: Model
    const humans: seq<Human>
    const ais: seq<AI>
    ghost const slots: seq<nat>  // whose snake each controller has: humans first

    constructor (model: Model, humans: seq<Human>, ais: seq<AI>, ghost slots: seq<nat>)
      ensures this.model == model && this.humans == humans && this.ais == ais && this.slots == slots
    {
      this.model, this.humans, this.ais, this.slots := model, humans, ais, slots;
    }

    /** Every controller has a snake of the model, and no snake has two controllers. */
    ghost predicate Valid()
      reads model
    {
      && model.Valid() && |slots| == |humans| + |ais|
      && (forall j, k :: 0 <= j < k < |slots| ==> slots[j] != slots[k])
      && (forall j :: 0 <= j < |slots| ==> slots[j] < |model.snakes|)
      && (forall j :: 0 <= j < |humans| ==> humans[j].snake == model.snakes[slots[j]])
      && (forall j :: 0 <= j < |ais| ==> ais[j].snake == model.snakes[slots[|humans| + j]])
    }

    /** What the phases of a frame keep, `turn` controllers having had their turn. */
    ghost predicate During(w0: World, acts: seq<Act>, turn: nat)
      reads model, model.snakes
    {
      Valid() && UpTo(w0, acts, model.World(), slots, turn)
    }

    /** What a frame's turns depend on, besides the board and the snapshot. */
    ghost function Plan(ctrl: bv16): (p: Script)
      reads model
      ensures Fits(p) && p.ctrl == ctrl
    {
      Script(model.rand, seq(|humans|, j requires 0 <= j < |humans| => humans[j].keyset), slots, ctrl, model.isOnPause)
    }

    ghost predicate Fits(p: Script)
      reads model
    {
      && p.rand == model.rand && p.slots == slots && p.paused == model.isOnPause
      && |p.keys| == |humans| && forall j :: 0 <= j < |humans| ==> p.keys[j] == humans[j].keyset
    }

    lemma TurnReady(w0: World, acts: seq<Act>, turn: nat)
      requires During(w0, acts, turn) && turn < |slots|
      ensures var i := slots[turn];
              && i < |model.snakes| && model.snakes[i].c != [] && OnBoard(model.sz, model.snakes[i].c[0])
    {
      var w, i := model.World(), slots[turn];
      assert Snakes.SnakeOk(w.sz, w.snakes[i]);
    }

    /** Each of the first n humans whose snake lives had its snake moved as the word asks. */
    ghost predicate Obeyed(w0: World, acts: seq<Act>, ctrl: bv16, n: nat)
      requires n <= |humans| <= |slots|
      requires forall j :: 0 <= j < |slots| ==> slots[j] < |w0.snakes|
    {
      forall j :: 0 <= j < n && w0.snakes[slots[j]].alive ==>
        AskedBy(acts, slots[j], humans[j].keyset, ctrl)
    }

    lemma ObeyedStays(w0: World, acts: seq<Act>, acts': seq<Act>, ctrl: bv16, n: nat)
      requires n <= |humans| <= |slots| && forall i :: 0 <= i < |slots| ==> slots[i] < |w0.snakes|
      requires acts <= acts'
      ensures Obeyed(w0, acts, ctrl, n) ==> Obeyed(w0, acts', ctrl, n)
    {
      AskedStays(acts, acts');
    }

    lemma ObeyedNext(w0: World, acts: seq<Act>, acts': seq<Act>, ctrl: bv16, j: nat)
      requires j < |humans| <= |slots| && forall i :: 0 <= i < |slots| ==> slots[i] < |w0.snakes|
      requires acts <= acts'
      ensures ctrl & Keys.PAUSE_BIT == 0 && Obeyed(w0, acts, ctrl, j) &&
              (w0.snakes[slots[j]].alive ==> AskedBy(acts', slots[j], humans[j].keyset, ctrl)) ==>
                Obeyed(w0, acts', ctrl, j + 1)
    {
      AskedStays(acts, acts');
    }

    method HumanTurn(j: nat, ctrl: bv16, ghost w0: World, ghost acts: seq<Act>, ghost p: Script, ghost late: bool)
      returns (pause: int, ghost acts': seq<Act>)
      requires During(w0, acts, j) && j < |humans| && Fits(p) && p.ctrl == ctrl
      requires HumansFed(p, late, w0, model.World(), model.drawn, j) && Ordered(p, w0, acts, j)
      modifies model`rabbits, model`drawn, model.snakes
      ensures During(w0, acts', j + 1) && Ordered(p, w0, acts', j + 1)
      ensures HumansFed(p, late, w0, model.World(), model.drawn, j + 1)
      ensures pause == if ctrl & Keys.PAUSE_BIT != 0 then 1 else 0
      ensures acts <= acts' && (pause == 1 ==> acts' == acts)
      ensures pause == 0 && w0.snakes[slots[j]].alive ==>
                AskedBy(acts', slots[j], humans[j].keyset, ctrl)
    {
      ghost var w := model.World();
      TurnReady(w0, acts, j);
      HumanStep(p, late, w0, w, model.drawn, j);
      ghost var i, s, alive := slots[j], humans[j].snake, humans[j].snake.status;
      assert w.snakes[i].alive == alive;
      ghost var cell;
      pause, cell := humans[j].FonKey(model, ctrl, i);
      ghost var d := if pause == 0 then Keys.Requested(humans[j].keyset, ctrl).d else Def;
      acts' := TurnTaken(w0, acts, w, model.World(), slots, j, pause == 0 && alive, d, cell);
      OrderedNext(p, w0, acts, j, pause == 0 && alive, d, cell);
    }

    /** All humans get the control word, in order. */
    method MoveHumans(ctrl: bv16, ghost w0: World, ghost p: Script, ghost late: bool)
      returns (pause: int, ghost acts: seq<Act>)
      requires During(w0, [], 0) && Fits(p) && p.ctrl == ctrl
      requires HumansFed(p, late, w0, model.World(), model.drawn, 0)
      modifies model`rabbits, model`drawn, model.snakes
      ensures During(w0, acts, |humans|) && Ordered(p, w0, acts, |humans|)
      ensures HumansFed(p, late, w0, model.World(), model.drawn, |humans|)
      ensures pause == if humans != [] && ctrl & Keys.PAUSE_BIT != 0 then 1 else 0
      ensures ctrl & Keys.PAUSE_BIT != 0 ==> acts == []
      ensures ctrl & Keys.PAUSE_BIT == 0 ==> Obeyed(w0, acts, ctrl, |humans|)
      ensures Waiting(w0, model.World(), slots, |humans|)
    {
      pause, acts := 0, [];
      OrderedStart(p, w0);
      for j := 0 to |humans|
        invariant During(w0, acts, j) && Ordered(p, w0, acts, j)
        invariant HumansFed(p, late, w0, model.World(), model.drawn, j)
        invariant model.snakes == old(model.snakes)
        invariant pause == if j > 0 && ctrl & Keys.PAUSE_BIT != 0 then 1 else 0
        invariant ctrl & Keys.PAUSE_BIT != 0 ==> acts == []
        invariant ctrl & Keys.PAUSE_BIT == 0 ==> Obeyed(w0, acts, ctrl, j)
      {
        ghost var before := acts;
        pause, acts := HumanTurn(j, ctrl, w0, acts, p, late);
        ObeyedNext(w0, before, acts, ctrl, j);
      }
      WaitingSince(w0, acts, model.World(), slots, |humans|);
    }

    /** The move of a snake that no human has; a safe choice for the snapshot, except in a pause. */
    ghost predicate AiAct(snapshot: World, a: Act, paused: bool) {
      && a.Move? && (forall j :: 0 <= j < |humans| && j < |slots| ==> a.i != slots[j])
      && (!paused ==> SafeMove(snapshot, a))
    }

    /** The moves from index `from` on are such moves, and picks. */
    ghost predicate AiActs(seen: World, w0: World, acts: seq<Act>, from: nat, paused: bool) {
      forall k :: from <= k < |acts| ==> AiAct(seen, acts[k], paused) && PickedAt(seen, w0, acts, k, paused)
    }

    lemma AiActsNext(seen: World, w0: World, acts: seq<Act>, a: Act, from: nat, paused: bool)
      requires AiActs(seen, w0, acts, from, paused)
      requires AiAct(seen, a, paused) && PickedAt(seen, w0, acts + [a], |acts|, paused)
      ensures AiActs(seen, w0, acts + [a], from, paused)
    {
      forall k | from <= k < |acts + [a]|
        ensures AiAct(seen, (acts + [a])[k], paused) && PickedAt(seen, w0, acts + [a], k, paused)
      {
        if k < |acts| {
          assert AiAct(seen, acts[k], paused);
          PickedStays(seen, w0, acts, a, k, paused);
        }
      }
    }

    /** Whatever calcNextStep returns, the move that follows finds what it needs. */
    lemma AiTurnSupplied(field: Ai.Matrix, seen: World, turn: nat, p: Script)
      requires Valid() && Fits(p) && |humans| <= turn < |slots|
      requires Ai.Shows(field, seen) && Snakes.WorldOk(seen) && seen.sz == model.sz
      requires Waiting(seen, model.World(), slots, turn)
      requires model.snakes[slots[turn]].c != [] && OnBoard(model.sz, model.snakes[slots[turn]].c[0])
      requires AisFed(p, seen, model.World(), model.drawn, turn)
      ensures model.snakes[slots[turn]].status ==>
                forall e :: Ai.MayReturn(field, model.rabbits, model.snakes[slots[turn]].c[0], model.isOnPause, e) ==>
                  model.Supplied(slots[turn], e)
    {
      var i := slots[turn];
      AiReady(p, seen, model.World(), model.drawn, turn);
      forall e | model.snakes[i].status && Ai.MayReturn(field, model.rabbits, model.snakes[i].c[0], model.isOnPause, e)
        ensures model.Supplied(i, e)
      {
        ReturnIsPicked(field, seen, model.World(), i, model.isOnPause, e);
      }
    }

    /** A computer player's call of fonKey. */
    method AiMove(j: nat, field: Ai.Matrix, ghost p: Script, ghost turn: nat, ghost seen: World)
      returns (pause: int, ghost alive: bool, ghost d: Dir, ghost cell: Coord)
      requires Valid() && Fits(p) && turn == |humans| + j && j < |ais|
      requires Ai.Shows(field, seen) && Snakes.WorldOk(seen) && seen.sz == model.sz
      requires Waiting(seen, model.World(), slots, turn)
      requires model.snakes[slots[turn]].c != [] && OnBoard(model.sz, model.snakes[slots[turn]].c[0])
      requires AisFed(p, seen, model.World(), model.drawn, turn)
      modifies model`rabbits, model`drawn, model.snakes
      ensures Valid() && pause == 0
      ensures AiMoved(p, seen, old(model.World()), old(model.drawn), model.World(), model.drawn,
                      slots[turn], alive, d, cell)
      ensures alive && !model.isOnPause ==> SafeMove(seen, Snakes.Move(slots[turn], d, cell))
    {
      ghost var w, i := model.World(), slots[turn];
      alive := ais[j].snake.status;
      assert w.snakes[i].alive == alive && w.snakes[i].body == ais[j].snake.c;
      AiReady(p, seen, w, model.drawn, turn);
      AiTurnSupplied(field, seen, turn, p);
      ghost var target;
      pause, d, cell, target := ais[j].FonKey(model, field, i, seen);
      if alive { ReturnIsPicked(field, seen, w, i, p.paused, d); }
      if alive && !model.isOnPause { SafeMoveIs(seen, i, w.snakes[i], d, cell); }
    }

    method AiTurn(j: nat, field: Ai.Matrix, ghost p: Script, ghost turn: nat,
                  ghost seen: World, ghost w0: World, ghost acts: seq<Act>)
      returns (pause: int, ghost acts': seq<Act>, ghost moved: bool, ghost a: Act)
      requires turn == |humans| + j && j < |ais| && Fits(p) && During(w0, acts, turn)
      requires Ai.Shows(field, seen) && Snakes.WorldOk(seen) && seen.sz == w0.sz
      requires Waiting(seen, model.World(), slots, turn)
      requires AisFed(p, seen, model.World(), model.drawn, turn) && Ordered(p, w0, acts, turn)
      modifies model`rabbits, model`drawn, model.snakes
      ensures During(w0, acts', turn + 1) && pause == 0 && Ordered(p, w0, acts', turn + 1)
      ensures Waiting(seen, model.World(), slots, turn + 1)
      ensures AisFed(p, seen, model.World(), model.drawn, turn + 1)
      ensures acts' == if moved then acts + [a] else acts
      ensures moved ==> AiAct(seen, a, model.isOnPause) && PickedAt(seen, w0, acts', |acts|, model.isOnPause)
    {
      ghost var w, pos := model.World(), model.drawn;
      TurnReady(w0, acts, turn);
      ghost var d, cell;
      pause, moved, d, cell := AiMove(j, field, p, turn, seen);
      a := Snakes.Move(slots[turn], d, cell);
      acts' := AiTurnTaken(p, seen, w0, acts, w, pos, model.World(), model.drawn, turn, moved, d, cell);
    }

    /** All computer players choose from the same field, in order. */
    method MoveAis(field: Ai.Matrix, pause0: int, ghost p: Script,
                   ghost seen: World, ghost w0: World, ghost acts0: seq<Act>)
      returns (pause: int, ghost acts: seq<Act>)
      requires During(w0, acts0, |humans|) && Fits(p)
      requires Ai.Shows(field, seen) && Snakes.WorldOk(seen) && seen.sz == w0.sz
      requires Waiting(seen, model.World(), slots, |humans|)
      requires AisFed(p, seen, model.World(), model.drawn, |humans|) && Ordered(p, w0, acts0, |humans|)
      modifies model`rabbits, model`drawn, model.snakes
      ensures During(w0, acts, |slots|) && Ordered(p, w0, acts, |slots|)
      ensures pause == if ais == [] then pause0 else 0
      ensures ais == [] ==> acts == acts0
      ensures acts0 <= acts && AiActs(seen, w0, acts, |acts0|, model.isOnPause)
    {
      pause, acts := pause0, acts0;
      ghost var turn := |humans|;
      for j := 0 to |ais|
        invariant turn == |humans| + j && During(w0, acts, turn)
        invariant model.snakes == old(model.snakes) && Ai.Shows(field, seen)
        invariant Waiting(seen, model.World(), slots, turn)
        invariant AisFed(p, seen, model.World(), model.drawn, turn)
        invariant acts0 <= acts && AiActs(seen, w0, acts, |acts0|, model.isOnPause) && Ordered(p, w0, acts, turn)
        invariant if j == 0 then pause == pause0 && acts == acts0 else pause == 0
      {
        ghost var before := acts;
        ghost var moved, a;
        pause, acts, moved, a := AiTurn(j, field, p, turn, seen, w0, acts);
        turn := turn + 1;
        if moved { AiActsNext(seen, w0, before, a, |acts0|, model.isOnPause); }
      }
    }

    /** Snake i checks for a bump, and dies of it. */
    method Check(i: nat)
      requires model.Valid() && i < |model.snakes| && model.snakes[i].c != []
      modifies model.snakes[i]
      ensures model.World() == Snakes.Bumped(old(model.World()), i)
    {
      ghost var w, s := model.World(), model.snakes[i].Value();
      var bumped := model.snakes[i].CutIfBump(model, i);
      if bumped {
        model.snakes[i].status := false;
      }
      Snakes.BumpedIs(w, i, bumped, model.snakes[i].c);
      assert model.snakes[i].Value() == Snakes.Snake(model.snakes[i].c, s.prevD, s.alive && !bumped);
      assert model.World().snakes == w.snakes[i := model.snakes[i].Value()];
    }

    /** Every snake does so, in list order. */
    method BumpPass()
      requires model.Valid() && Snakes.Bodied(model.World().snakes)
      modifies model.snakes
      ensures model.World() == Snakes.BumpFrom(old(model.World()), 0)
    {
      for i := 0 to |model.snakes|
        invariant Snakes.Bodied(model.World().snakes)
        invariant Snakes.BumpFrom(model.World(), i) == Snakes.BumpFrom(old(model.World()), 0)
      {
        assert model.World().snakes[i].body == model.snakes[i].c;
        Check(i);
      }
    }

    /** In terms of the typed bytes: without a lone escape, each human's last own key decides. */
    ghost predicate FollowsKeys(w0: World, acts: seq<Act>, input: string)
      requires |humans| <= |slots| && forall j :: 0 <= j < |slots| ==> slots[j] < |w0.snakes|
    {
      Keys.Escape !in Keys.Tokens(input) ==>
        forall j :: 0 <= j < |humans| && w0.snakes[slots[j]].alive ==>
          Asked(acts, slots[j], Keys.LastDir(humans[j].keyset, Keys.Tokens(input)))
    }

    lemma ObeyedIsFollowed(w0: World, acts: seq<Act>, input: string, ctrl: bv16)
      requires |humans| <= |slots| && forall j :: 0 <= j < |slots| ==> slots[j] < |w0.snakes|
      requires ctrl == Keys.Meaning(Keys.Tokens(input))
      requires ctrl & Keys.PAUSE_BIT == 0 ==> Obeyed(w0, acts, ctrl, |humans|)
      ensures FollowsKeys(w0, acts, input)
    {
      Keys.HumanRequests(Keys.Wasd, input);
      Keys.HumanRequests(Keys.Arrows, input);
    }

    /** Every move of a computer player in a frame that began with w0 was its pick for the snapshot,
        and safe for it, except in a pause. */
    ghost predicate AisPlay(seen: World, w0: World, acts: seq<Act>, paused: bool)
      requires |slots| == |humans| + |ais|
    {
      forall k, j :: 0 <= k < |acts| && |humans| <= j < |slots| && acts[k].Move? && acts[k].i == slots[j] ==>
        PickedAt(seen, w0, acts, k, paused) && (!paused ==> SafeMove(seen, acts[k]))
    }

    lemma AisPlaySince(seen: World, w0: World, acts0: seq<Act>, acts: seq<Act>, paused: bool)
      requires |slots| == |humans| + |ais| && acts0 <= acts && AiActs(seen, w0, acts, |acts0|, paused)
      requires forall j :: |humans| <= j < |slots| ==> Unmoved(acts0, slots[j])
      ensures AisPlay(seen, w0, acts, paused)
    {
      forall k, j | 0 <= k < |acts| && |humans| <= j < |slots| && acts[k].Move? && acts[k].i == slots[j]
        ensures PickedAt(seen, w0, acts, k, paused) && (!paused ==> SafeMove(seen, acts[k]))
      {
        assert Unmoved(acts0, slots[j]);
        assert forall l :: 0 <= l < |acts0| ==> acts0[l] == acts[l];
        assert k >= |acts0|;
        assert AiAct(seen, acts[k], paused);
      }
    }

    /** What a frame needs at its start; `late` says that the snapshot is taken after the humans'
        turns. */
    ghost predicate Ready(ctrl: bv16, late: bool)
      reads model, model.snakes
    {
      && Valid() && Snakes.WorldOk(model.World()) && Frames.Apart(model.World().snakes)
      && HumansFed(Plan(ctrl), late, model.World(), model.World(), model.drawn, 0)
    }

    /** Room for a meal by every controller and a rand that draws every cell are enough. */
    lemma FairReady(ctrl: bv16, late: bool)
      requires Valid() && Snakes.WorldOk(model.World()) && Frames.Apart(model.World().snakes)
      requires Board.Fair(model.rand, model.sz) && Budget(model.World(), |slots|)
      ensures Ready(ctrl, late)
    {
      FairSupply(Plan(ctrl), late, model.World(), model.World(), model.drawn, 0);
    }

    /** In a pause that was asked for the humans do not move. */
    function FirstToMove(ctrl: bv16): nat {
      if ctrl & Keys.PAUSE_BIT != 0 then |humans| else 0
    }

    /** The moves of a text frame: snapshot, humans, computer players. */
    method TextMoves(ctrl: bv16) returns (pause: int, ghost acts: seq<Act>)
      requires Ready(ctrl, false)
      modifies model`rabbits, model`drawn, model.snakes
      ensures During(old(model.World()), acts, |slots|)
      ensures pause == if ais == [] && humans != [] && ctrl & Keys.PAUSE_BIT != 0 then 1 else 0
      ensures pause != 0 ==> acts == []
      ensures ctrl & Keys.PAUSE_BIT == 0 ==> Obeyed(old(model.World()), acts, ctrl, |humans|)
      ensures AisPlay(old(model.World()), old(model.World()), acts, model.isOnPause)
      ensures InOrder(old(model.World()), acts, slots, FirstToMove(ctrl), |slots|)
      ensures OneMoveEach(old(model.World()), acts, slots, FirstToMove(ctrl))
    {
      ghost var w0, acts0 := model.World(), [];
      FirstTurn(w0, slots);
      var field := Update(model);
      ghost var p := Plan(ctrl);
      pause, acts0 := MoveHumans(ctrl, w0, p, false);
      HumansDone(p, false, w0, model.World(), model.drawn);
      pause, acts := MoveAis(field, pause, p, w0, w0, acts0);
      ObeyedStays(w0, acts0, acts, ctrl, |humans|);
      AisPlaySince(w0, w0, acts0, acts, model.isOnPause);
      OrderedIs(p, w0, acts, |slots|);
      InOrderIsOnce(w0, acts, slots, FirstToMove(ctrl));
    }

    /** The first h moves of a window frame are the humans'; the others are the computer players',
        safe for the world after the first h. */
    ghost predicate HumansFirst(w0: World, acts: seq<Act>, h: nat, paused: bool) {
      && h <= |acts| && Snakes.Legal(w0, acts[..h])
      && AiActs(Snakes.After(w0, acts[..h]), w0, acts, h, paused)
      && forall j :: |humans| <= j < |slots| ==> Unmoved(acts[..h], slots[j])
    }

    lemma HumansWereFirst(w0: World, acts0: seq<Act>, acts: seq<Act>, paused: bool)
      requires Snakes.Legal(w0, acts0) && acts0 <= acts
      requires AiActs(Snakes.After(w0, acts0), w0, acts, |acts0|, paused)
      requires forall j :: |humans| <= j < |slots| ==> Unmoved(acts0, slots[j])
      ensures HumansFirst(w0, acts, |acts0|, paused)
    {
      assert acts[..|acts0|] == acts0;
    }

    /** The moves of a window frame: humans, snapshot, computer players. */
    method GuiMoves(ctrl: bv16) returns (ghost acts: seq<Act>, ghost h: nat)
      requires Ready(ctrl, true)
      modifies model`rabbits, model`drawn, model.snakes
      ensures During(old(model.World()), acts, |slots|)
      ensures ctrl & Keys.PAUSE_BIT == 0 ==> Obeyed(old(model.World()), acts, ctrl, |humans|)
      ensures HumansFirst(old(model.World()), acts, h, model.isOnPause)
      ensures InOrder(old(model.World()), acts, slots, FirstToMove(ctrl), |slots|)
      ensures OneMoveEach(old(model.World()), acts, slots, FirstToMove(ctrl))
    {
      ghost var w0, acts0 := model.World(), [];
      FirstTurn(w0, slots);
      var pause;
      ghost var p := Plan(ctrl);
      pause, acts0 := MoveHumans(ctrl, w0, p, true);
      ghost var w1 := model.World();
      HumansDone(p, true, w0, w1, model.drawn);
      var field := Update(model);
      pause, acts := MoveAis(field, pause, p, w1, w0, acts0);
      ObeyedStays(w0, acts0, acts, ctrl, |humans|);
      h := |acts0|;
      HumansWereFirst(w0, acts0, acts, model.isOnPause);
      OrderedIs(p, w0, acts, |slots|);
      InOrderIsOnce(w0, acts, slots, FirstToMove(ctrl));
    }

    /** Whether a text frame pauses: a lone escape was typed, and no computer player, having its
        turn last, resets the flag. */
    predicate Pauses(input: string) {
      ais == [] && humans != [] && Keys.Escape in Keys.Tokens(input)
    }

    /** The first controller that moves its snake: the humans do not if a lone escape was typed. */
    function FirstMoverFor(input: string): nat {
      if Keys.Escape in Keys.Tokens(input) then |humans| else 0
    }

    lemma PauseBitIs(input: string)
      ensures Keys.Meaning(Keys.Tokens(input)) & Keys.PAUSE_BIT != 0 <==> Keys.Escape in Keys.Tokens(input)
    {
      Keys.HumanRequests(Keys.Wasd, input);
    }

    /** One turn of the loop in TextView::draw, on the bytes that were typed. False means that the
        loop was left: the second pause does that. */
    method TextFrame(input: string) returns (running: bool, ghost acts: seq<Act>)
      requires Ready(Keys.Meaning(Keys.Tokens(input)), false)
      modifies model`rabbits, model`drawn, model`isOnPause, model.snakes
      ensures Frames.Frame(old(model.World()), Frames.Round(acts, Pauses(input)), model.World())
      ensures running <==> !(Pauses(input) && old(model.isOnPause))
      ensures model.isOnPause <==> old(model.isOnPause) || Pauses(input)
      ensures Snakes.WorldOk(model.World()) && Frames.Apart(model.World().snakes)
      ensures |model.rabbits| == old(|model.rabbits|)
      ensures |acts| <= |slots|
      ensures FollowsKeys(old(model.World()), acts, input)
      ensures AisPlay(old(model.World()), old(model.World()), acts, old(model.isOnPause))
      ensures InOrder(old(model.World()), acts, slots, FirstMoverFor(input), |slots|)
      ensures OneMoveEach(old(model.World()), acts, slots, FirstMoverFor(input))
    {
      ghost var w0 := model.World();
      var ctrl := Keys.GetCtrlNum(input);
      var pause;
      pause, acts := TextMoves(ctrl);
      ObeyedIsFollowed(w0, acts, input, ctrl);
      PauseBitIs(input);
      running := TextEnd(pause, w0, acts);
    }

    /** The end of a text frame: the bump pass, or the bookkeeping of a pause. */
    method TextEnd(pause: int, ghost w0: World, ghost acts: seq<Act>) returns (running: bool)
      requires model.Valid() && Going(w0, acts, model.World()) && (pause != 0 ==> acts == [])
      requires Snakes.WorldOk(w0) && Frames.Apart(w0.snakes)
      modifies model`isOnPause, model.snakes
      ensures Frames.Frame(w0, Frames.Round(acts, pause != 0), model.World())
      ensures running <==> !(pause != 0 && old(model.isOnPause))
      ensures model.isOnPause <==> old(model.isOnPause) || pause != 0
      ensures Snakes.WorldOk(model.World()) && Frames.Apart(model.World().snakes)
      ensures |model.rabbits| == |w0.rabbits|
    {
      EndOfFrame(w0, acts, model.World());
      running := true;
      if pause == 0 {
        BumpPass();
      } else if model.isOnPause {
        running := false;
      } else {
        model.isOnPause := true;
      }
    }

    /** One turn of the loop in GUIView::draw, for a control word made from the pressed keys.
        False means that the window was closed and the loop was left before the bump pass. The
        computer players' moves are safe for the world after the first h moves, the humans'. */
    method GuiFrame(ctrl: bv16) returns (running: bool, ghost acts: seq<Act>, ghost h: nat)
      requires Ready(ctrl, true)
      modifies model`rabbits, model`drawn, model.snakes
      ensures running <==> ctrl & Keys.CLOSE_BIT == 0
      ensures running ==> Frames.Frame(old(model.World()), Frames.Round(acts, false), model.World())
      ensures running ==> Frames.Apart(model.World().snakes)
      ensures Snakes.WorldOk(model.World()) && |model.rabbits| == old(|model.rabbits|)
      ensures ctrl & Keys.PAUSE_BIT == 0 ==> Obeyed(old(model.World()), acts, ctrl, |humans|)
      ensures !running ==> Snakes.Legal(old(model.World()), acts) &&
                           model.World() == Snakes.After(old(model.World()), acts)
      ensures HumansFirst(old(model.World()), acts, h, model.isOnPause)
      ensures InOrder(old(model.World()), acts, slots, FirstToMove(ctrl), |slots|)
      ensures OneMoveEach(old(model.World()), acts, slots, FirstToMove(ctrl))
    {
      ghost var w0 := model.World();
      acts, h := GuiMoves(ctrl);
      running := GuiEnd(ctrl, w0, acts);
    }

    /** The end of a window frame: the bump pass, unless the window was closed. */
    method GuiEnd(ctrl: bv16, ghost w0: World, ghost acts: seq<Act>) returns (running: bool)
      requires model.Valid() && Going(w0, acts, model.World())
      requires Snakes.WorldOk(w0) && Frames.Apart(w0.snakes)
      modifies model.snakes
      ensures running <==> ctrl & Keys.CLOSE_BIT == 0
      ensures running ==> Frames.Frame(w0, Frames.Round(acts, false), model.World())
      ensures running ==> Frames.Apart(model.World().snakes)
      ensures !running ==> model.World() == old(model.World())
      ensures Snakes.WorldOk(model.World()) && |model.rabbits| == |w0.rabbits|
    {
      EndOfFrame(w0, acts, model.World());
      running := ctrl & Keys.CLOSE_BIT == 0;
      if running {
        BumpPass();
      }
    }

    // ----- from the start of the program -----

    /** The controllers' snakes are the model's, humans first. */
    static ghost predicate Seated(model: Model, humans: seq<Human>, ais: seq<AI>)
      reads model
    {
      && model.Valid() && |model.snakes| == |humans| + |ais|
      && (forall j :: 0 <= j < |humans| ==> humans[j].snake == model.snakes[j])
      && (forall j :: 0 <= j < |ais| ==> ais[j].snake == model.snakes[|humans| + j])
    }

    static method SeatHuman(model: Model, humans: seq<Human>, keyset: Keys.KeySet, cell: Coord)
      returns (humans': seq<Human>)
      requires Seated(model, humans, [])
      modifies model`snakes
      ensures Seated(model, humans', [])
      ensures |humans'| == |humans| + 1 && humans <= humans' && humans'[|humans|].keyset == keyset
      ensures model.World() == old(model.World()).(snakes := old(model.World().snakes) + [OneCell(cell)])
      ensures forall s :: s in model.snakes ==> s in old(model.snakes) || fresh(s)
    {
      var snake := model.CreateSnake(cell);
      var human := new Human(keyset, snake);
      humans' := humans + [human];
    }

    static method SeatAi(model: Model, humans: seq<Human>, ais: seq<AI>, cell: Coord) returns (ais': seq<AI>)
      requires Seated(model, humans, ais)
      modifies model`snakes
      ensures Seated(model, humans, ais') && |ais'| == |ais| + 1
      ensures model.World() == old(model.World()).(snakes := old(model.World().snakes) + [OneCell(cell)])
      ensures forall s :: s in model.snakes ==> s in old(model.snakes) || fresh(s)
    {
      var snake := model.CreateSnake(cell);
      var ai := new AI(snake);
      ais' := ais + [ai];
    }

    static method Assemble(model: Model, humans: seq<Human>, ais: seq<AI>) returns (view: View)
      requires Seated(model, humans, ais)
      ensures fresh(view) && view.model == model && view.humans == humans && view.ais == ais && view.Valid()
      ensures |view.slots| == |model.snakes| && forall j :: 0 <= j < |view.slots| ==> view.slots[j] == j
    {
      view := new View(model, humans, ais, seq(|model.snakes|, j => j));
      assert forall j :: 0 <= j < |view.slots| ==> view.slots[j] == j;
    }

    /** main's humans: the first one has the letters, the second one the arrows. */
    static ghost predicate HumansAre(humans: seq<Human>, nHumans: int) {
      && |humans| == (if nHumans == 2 then 2 else if nHumans >= 1 then 1 else 0)
      && (nHumans >= 1 ==> humans[0].keyset == Keys.Wasd)
      && (nHumans == 2 ==> humans[1].keyset == Keys.Arrows)
    }

    static ghost predicate AisAre(ais: seq<AI>, nAis: int) {
      |ais| == if nAis == 2 then 2 else if nAis >= 1 then 1 else 0
    }

    static method SeatHumans(model: Model, nHumans: int) returns (humans: seq<Human>)
      requires Seated(model, [], [])
      modifies model`snakes
      ensures Seated(model, humans, []) && HumansAre(humans, nHumans)
      ensures model.World() == old(model.World()).(snakes := Lineup(nHumans, 0))
      ensures forall s :: s in model.snakes ==> fresh(s)
    {
      humans := [];
      if nHumans >= 1 {
        humans := SeatHuman(model, humans, Keys.Wasd, Coord(2, 2));
      }
      if nHumans == 2 {
        humans := SeatHuman(model, humans, Keys.Arrows, Coord(8, 2));
      }
      assert model.World().snakes == Lineup(nHumans, 0);
    }

    /** main's computer players. */
    static method SeatAis(model: Model, humans: seq<Human>, nHumans: int, nAis: int) returns (ais: seq<AI>)
      requires Seated(model, humans, []) && model.World().snakes == Lineup(nHumans, 0)
      modifies model`snakes
      ensures Seated(model, humans, ais) && AisAre(ais, nAis)
      ensures model.World() == old(model.World()).(snakes := Lineup(nHumans, nAis))
      ensures forall s :: s in model.snakes ==> s in old(model.snakes) || fresh(s)
    {
      ais := [];
      if nAis >= 1 {
        ais := SeatAi(model, humans, ais, Coord(13, 2));
      }
      if nAis == 2 {
        ais := SeatAi(model, humans, ais, Coord(18, 2));
      }
      assert model.World().snakes == Lineup(nHumans, nAis);
    }

    /** What main does before it calls draw: snakes and controllers for the numbers asked for. */
    static method Launch(sz: Size, rand: nat -> nat, nHumans: int, nAis: int) returns (view: View)
      ensures fresh(view) && fresh(view.model) && view.Valid()
      ensures forall j :: 0 <= j < |view.model.snakes| ==> fresh(view.model.snakes[j])
      ensures view.model.World() == Snakes.World(sz, Lineup(nHumans, nAis), [])
      ensures view.model.rand == rand && !view.model.isOnPause && |view.slots| == |view.model.snakes|
      ensures HumansAre(view.humans, nHumans) && AisAre(view.ais, nAis)
      ensures forall j :: 0 <= j < |view.slots| ==> view.slots[j] == j
    {
      var model := new Model(sz, rand);
      var humans := SeatHumans(model, nHumans);
      var ais := SeatAis(model, humans, nHumans, nAis);
      view := Assemble(model, humans, ais);
      assert forall j :: 0 <= j < |model.snakes| ==> model.snakes[j] in model.snakes;
    }

    /** A round as the typed bytes ask for it: a pause, or every alive snake of a controller moves
        once, the humans' after their last own keys, the computer players' as they pick. */
    ghost predicate RoundIs(w: World, r: Frames.Round, input: string) {
      && |slots| == |humans| + |ais| && (forall j :: 0 <= j < |slots| ==> slots[j] < |w.snakes|)
      && r.paused == Pauses(input) && FollowsKeys(w, r.moves, input)
      && InOrder(w, r.moves, slots, FirstMoverFor(input), |slots|)
      && AisPlay(w, w, r.moves, false)
    }

    /** The same; quantified, so that it is unfolded only where it is asked for. */
    ghost predicate RoundOf(w: World, r: Frames.Round, input: string) {
      forall typed :: typed == input ==> RoundIs(w, r, typed)
    }

    /** One round of a game. */
    method PlayRound(input: string, ghost worlds: seq<World>, ghost rounds: seq<Frames.Round>, ghost room: nat)
      returns (running: bool, ghost w: World, ghost r: Frames.Round)
      requires Valid() && Playable(model.sz) && Board.Fair(model.rand, model.sz) && (ais != [] ==> !model.isOnPause)
      requires Played(worlds, rounds, model.World(), room + |slots|) && |worlds| == |rounds| + 1
      modifies model`rabbits, model`drawn, model`isOnPause, model.snakes
      ensures Played(worlds + [w], rounds + [r], w, room) && w == model.World()
      ensures RoundOf(worlds[|rounds|], r, input)
      ensures (ais != [] ==> !model.isOnPause) && (!running ==> r.paused)
    {
      ghost var w0 := model.World();
      PlayedIs(worlds, rounds, w0, room + |slots|);
      FairReady(Keys.Meaning(Keys.Tokens(input)), false);
      ghost var acts;
      running, acts := TextFrame(input);
      w, r := model.World(), Frames.Round(acts, Pauses(input));
      PlayedNext(worlds, rounds, w0, r, w, room, |slots|);
      assert RoundIs(w0, r, input);
    }

    /** Each round as its input asks for it. */
    ghost predicate PlayedBy(worlds: seq<World>, rounds: seq<Frames.Round>, inputs: seq<string>) {
      && |worlds| == |rounds| + 1 && |rounds| <= |inputs|
      && forall k :: 0 <= k < |rounds| ==> RoundOf(worlds[k], rounds[k], inputs[k])
    }

    lemma PlayedByNext(worlds: seq<World>, rounds: seq<Frames.Round>, inputs: seq<string>, w: World, r: Frames.Round)
      requires PlayedBy(worlds, rounds, inputs) && |rounds| < |inputs|
      requires RoundOf(worlds[|rounds|], r, inputs[|rounds|])
      ensures PlayedBy(worlds + [w], rounds + [r], inputs)
    {
      forall k | 0 <= k < |rounds + [r]| ensures RoundOf((worlds + [w])[k], (rounds + [r])[k], inputs[k]) {
        if k < |rounds| { assert RoundOf(worlds[k], rounds[k], inputs[k]); }
      }
    }

    /** TextView::draw on a sequence of inputs: the rabbits, then frames until the second pause.
        It plays a game, one round to an input. */
    method Play(inputs: seq<string>) returns (ghost worlds: seq<World>, ghost rounds: seq<Frames.Round>)
      requires Valid() && model.rabbits == [] && Playable(model.sz) && Frames.Placed(model.sz, model.World().snakes)
      requires Board.Fair(model.rand, model.sz) && !model.isOnPause
      requires Budget(model.World(), 10 + RoomFor(|inputs|, |slots|))
      modifies model`rabbits, model`drawn, model`isOnPause, model.snakes
      ensures Frames.Game(worlds, rounds) && worlds[|rounds|] == model.World()
      ensures Snakes.WorldOk(model.World()) && Frames.Apart(model.World().snakes)
      ensures worlds[0].snakes == old(model.World().snakes) && |worlds[0].rabbits| == 10
      ensures worlds[0].sz == model.sz && PlayedBy(worlds, rounds, inputs)
      ensures |rounds| < |inputs| ==> rounds != [] && rounds[|rounds| - 1].paused
    {
      Open(10, RoomFor(|inputs|, |slots|));
      ghost var first, r := model.World(), Frames.Round([], false);
      worlds, rounds := [first], [];
      var k, running := 0, true;
      ghost var left := |inputs|;
      while running && k < |inputs|
        invariant 0 <= k <= |inputs| && left == |inputs| - k && k == |rounds| && model.snakes == old(model.snakes)
        invariant Played(worlds, rounds, model.World(), RoomFor(left, |slots|))
        invariant |worlds| == k + 1 && worlds[0] == first
        invariant PlayedBy(worlds, rounds, inputs) && (ais != [] ==> !model.isOnPause)
        invariant !running ==> r.paused && rounds != [] && rounds[|rounds| - 1] == r
        decreases |inputs| - k
      {
        left := left - 1;
        ghost var w;
        running, w, r := PlayRound(inputs[k], worlds, rounds, RoomFor(left, |slots|));
        PlayedByNext(worlds, rounds, inputs, w, r);
        worlds, rounds := worlds + [w], rounds + [r];
        k := k + 1;
      }
      PlayedIs(worlds, rounds, model.World(), RoomFor(left, |slots|));
    }

    /** The whole program with the text view: main, then draw. */
    static method RunText(sz: Size, rand: nat -> nat, nHumans: int, nAis: int, inputs: seq<string>)
      returns (view: View, ghost worlds: seq<World>, ghost rounds: seq<Frames.Round>)
      requires Playable(sz) && sz.rows > LastRow(nHumans, nAis) && Board.Fair(rand, sz)
      requires var n := |Lineup(nHumans, nAis)|; 10 + n + RoomFor(|inputs|, n) <= Board.Area(sz)
      ensures HumansAre(view.humans, nHumans) && AisAre(view.ais, nAis)
      ensures |view.slots| == |Lineup(nHumans, nAis)| && forall j :: 0 <= j < |view.slots| ==> view.slots[j] == j
      ensures Frames.Game(worlds, rounds) && worlds[|rounds|] == view.model.World()
      ensures worlds[0].sz == sz && worlds[0].snakes == Lineup(nHumans, nAis) && |worlds[0].rabbits| == 10
      ensures view.PlayedBy(worlds, rounds, inputs)
      ensures |rounds| < |inputs| ==> rounds != [] && rounds[|rounds| - 1].paused
    {
      view := Launch(sz, rand, nHumans, nAis);
      LineupPlaced(sz, nHumans, nAis);
      LineupCells(nHumans, nAis);
      worlds, rounds := view.Play(inputs);
    }

    /** The start of draw: the rabbits. */
    method Open(count: nat, ghost room: nat)
      requires Valid() && model.rabbits == [] && Playable(model.sz) && Frames.Placed(model.sz, model.World().snakes)
      requires Board.Fair(model.rand, model.sz)
      requires Budget(model.World(), count + room)
      modifies model`rabbits, model`drawn
      ensures Played([model.World()], [], model.World(), room)
      ensures model.World().snakes == old(model.World().snakes) && |model.rabbits| == count
    {
      Board.FairStocks(model.rand, model.World(), model.drawn, count);
      model.Stock(count);
      PlayedStart(model.World(), room);
    }
  }

  function OneCell(cell: Coord): Snakes.Snake {
    Snakes.Snake([cell], Right, true)
  }

  /** The snakes that main puts on the board. */
  function Lineup(nHumans: int, nAis: int): seq<Snakes.Snake> {
    (if nHumans >= 1 then [OneCell(Coord(2, 2))] else []) +
    (if nHumans == 2 then [OneCell(Coord(8, 2))] else []) +
    (if nAis >= 1 then [OneCell(Coord(13, 2))] else []) +
    (if nAis == 2 then [OneCell(Coord(18, 2))] else [])
  }

  /** The last row that has one of them. */
  function LastRow(nHumans: int, nAis: int): nat {
    if nAis == 2 then 18 else if nAis >= 1 then 13 else if nHumans == 2 then 8 else 2
  }

  /** They are on the board exactly if the window has rows enough; main asks for columns only. */
  lemma LineupPlaced(sz: Size, nHumans: int, nAis: int)
    requires Playable(sz)
    ensures Frames.Placed(sz, Lineup(nHumans, nAis)) <==> sz.rows > LastRow(nHumans, nAis)
  {
    var l := Lineup(nHumans, nAis);
    assert nHumans >= 1 || nAis >= 1 ==> l[|l| - 1] == OneCell(Coord(LastRow(nHumans, nAis), 2));
  }

  lemma LineupCells(nHumans: int, nAis: int)
    ensures |Board.Cells(Lineup(nHumans, nAis))| == |Lineup(nHumans, nAis)|
  {
    OneCellEach(Lineup(nHumans, nAis));
  }

  lemma {:induction false} OneCellEach(snakes: seq<Snakes.Snake>)
    requires forall i :: 0 <= i < |snakes| ==> |snakes[i].body| == 1
    ensures |Board.Cells(snakes)| == |snakes|
  {
    if snakes != [] {
      OneCellEach(snakes[..|snakes| - 1]);
    }
  }
}
