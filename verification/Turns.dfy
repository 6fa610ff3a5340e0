/** The turns of the controllers within a frame, on values: what the moves made so far have kept,
    and when the next controller may have its turn. */
module Turns {
  import opened Torus
  import Snakes
  import Frames
  import Board

  type World = Snakes.World

  type Act = Snakes.Act

  /** The moves made so far in a frame that began with w0 have led to w. */
  ghost predicate Going(w0: World, acts: seq<Act>, w: World) {
    && Snakes.Legal(w0, acts) && Snakes.After(w0, acts) == w && Frames.OneEach(w0, acts)
    && Snakes.WorldOk(w) && w.sz == w0.sz && |w.snakes| == |w0.snakes| && |w.rabbits| == |w0.rabbits|
    && (forall i :: 0 <= i < |w.snakes| ==> w.snakes[i].alive == w0.snakes[i].alive)
    && (forall i :: 0 <= i < |w.snakes| && Unmoved(acts, i) ==> w.snakes[i] == w0.snakes[i])
  }

  ghost predicate Unmoved(acts: seq<Act>, i: nat) {
    forall k :: 0 <= k < |acts| ==> acts[k].Move? && acts[k].i != i
  }

  lemma StillUnmoved(acts: seq<Act>, a: Act, j: nat)
    requires Unmoved(acts + [a], j)
    ensures Unmoved(acts, j) && a.Move? && a.i != j
  {
    assert (acts + [a])[|acts|] == a;
    assert forall k :: 0 <= k < |acts| ==> acts[k] == (acts + [a])[k];
  }

  lemma GoingOn(w0: World, acts: seq<Act>, w: World, i: nat, d: Dir, cell: Coord)
    requires Going(w0, acts, w) && Snakes.CanMove(w, i, d, cell) && w.snakes[i].alive && Unmoved(acts, i)
    ensures Going(w0, acts + [Snakes.Move(i, d, cell)], Snakes.Moved(w, i, d, cell))
  {
    var a := Snakes.Move(i, d, cell);
    Snakes.OneMoreAct(w0, acts, a);
    Snakes.MoveKeepsWorldOk(w, i, d, cell);
    forall j | 0 <= j < |w.snakes| && Unmoved(acts + [a], j)
      ensures Snakes.Moved(w, i, d, cell).snakes[j] == w0.snakes[j]
    {
      StillUnmoved(acts, a, j);
    }
  }

  /** Some move of snake i asked for direction d. */
  ghost predicate Asked(acts: seq<Act>, i: nat, d: Dir) {
    exists k :: 0 <= k < |acts| && acts[k].Move? && acts[k].i == i && acts[k].d == d
  }

  lemma AskedStays(acts: seq<Act>, acts': seq<Act>)
    requires acts <= acts'
    ensures forall i, d :: Asked(acts, i, d) ==> Asked(acts', i, d)
  {
    forall i, d | Asked(acts, i, d) ensures Asked(acts', i, d) {
      var k :| 0 <= k < |acts| && acts[k].Move? && acts[k].i == i && acts[k].d == d;
      assert acts'[k] == acts[k];
    }
  }

  // ----- who moves -----

  /** The slots whose snakes are alive, among those of the controllers from `from` to `to` - 1. */
  ghost function Movers(w0: World, slots: seq<nat>, from: nat, to: nat): seq<nat>
    requires to <= |slots| && forall j :: 0 <= j < |slots| ==> slots[j] < |w0.snakes|
  {
    if to <= from then []
    else Movers(w0, slots, from, to - 1) + (if w0.snakes[slots[to - 1]].alive then [slots[to - 1]] else [])
  }

  /** Exactly the alive snakes of these controllers have moved, in the controllers' order. */
  ghost predicate InOrder(w0: World, acts: seq<Act>, slots: seq<nat>, from: nat, to: nat) {
    && to <= |slots| && (forall j :: 0 <= j < |slots| ==> slots[j] < |w0.snakes|)
    && var who := Movers(w0, slots, from, to);
       |acts| == |who| && forall k :: 0 <= k < |acts| ==> IsMoveOf(acts, k, who[k])
  }

  predicate IsMoveOf(acts: seq<Act>, k: nat, i: nat) {
    k < |acts| && acts[k].Move? && acts[k].i == i
  }

  lemma InOrderNext(w0: World, acts: seq<Act>, slots: seq<nat>, from: nat, turn: nat, moved: bool, d: Dir, cell: Coord)
    requires InOrder(w0, acts, slots, from, turn) && turn < |slots|
    requires moved <==> turn >= from && w0.snakes[slots[turn]].alive
    ensures InOrder(w0, if moved then acts + [Snakes.Move(slots[turn], d, cell)] else acts, slots, from, turn + 1)
  {
    var acts' := if moved then acts + [Snakes.Move(slots[turn], d, cell)] else acts;
    var who, who' := Movers(w0, slots, from, turn), Movers(w0, slots, from, turn + 1);
    assert who' == if moved then who + [slots[turn]] else who;
    forall k | 0 <= k < |acts'| ensures IsMoveOf(acts', k, who'[k]) {
      if k < |acts| { assert IsMoveOf(acts, k, who[k]); }
    }
  }

  /** Snake i has exactly one move. */
  ghost predicate MovesOnce(acts: seq<Act>, i: nat) {
    exists k :: IsMoveOf(acts, k, i) && forall l :: IsMoveOf(acts, l, i) ==> l == k
  }

  /** The snakes of the controllers from `from` on move once if they are alive, and not otherwise;
      nobody else moves. */
  ghost predicate OneMoveEach(w0: World, acts: seq<Act>, slots: seq<nat>, from: nat) {
    && (forall j :: 0 <= j < |slots| ==> slots[j] < |w0.snakes|)
    && (forall j :: from <= j < |slots| && w0.snakes[slots[j]].alive ==> MovesOnce(acts, slots[j]))
    && (forall k :: 0 <= k < |acts| ==> MovesAlive(w0, acts, slots, from, k))
  }

  ghost predicate MovesAlive(w0: World, acts: seq<Act>, slots: seq<nat>, from: nat, k: nat) {
    exists j :: from <= j < |slots| && slots[j] < |w0.snakes| && w0.snakes[slots[j]].alive &&
      IsMoveOf(acts, k, slots[j])
  }

  lemma {:induction false} MoversAre(w0: World, slots: seq<nat>, from: nat, to: nat)
    requires to <= |slots| && forall j :: 0 <= j < |slots| ==> slots[j] < |w0.snakes|
    ensures forall j :: from <= j < to && w0.snakes[slots[j]].alive ==> slots[j] in Movers(w0, slots, from, to)
    ensures forall i :: i in Movers(w0, slots, from, to) ==> IsMover(w0, slots, from, to, i)
  {
    if to > from {
      MoversAre(w0, slots, from, to - 1);
      forall i | i in Movers(w0, slots, from, to) ensures IsMover(w0, slots, from, to, i) {
        if i in Movers(w0, slots, from, to - 1) {
          assert IsMover(w0, slots, from, to - 1, i);
        }
      }
    }
  }

  ghost predicate IsMover(w0: World, slots: seq<nat>, from: nat, to: nat, i: nat) {
    exists j :: from <= j < to <= |slots| && slots[j] == i && i < |w0.snakes| && w0.snakes[i].alive
  }

  /** With different slots, moving in order is moving once each. */
  lemma InOrderIsOnce(w0: World, acts: seq<Act>, slots: seq<nat>, from: nat)
    requires InOrder(w0, acts, slots, from, |slots|) && Frames.OneEach(w0, acts)
    ensures OneMoveEach(w0, acts, slots, from)
  {
    var who := Movers(w0, slots, from, |slots|);
    MoversAre(w0, slots, from, |slots|);
    forall j | from <= j < |slots| && w0.snakes[slots[j]].alive ensures MovesOnce(acts, slots[j]) {
      var k :| 0 <= k < |who| && who[k] == slots[j];
      assert IsMoveOf(acts, k, who[k]);
    }
    forall k | 0 <= k < |acts| ensures MovesAlive(w0, acts, slots, from, k) {
      assert IsMoveOf(acts, k, who[k]) && IsMover(w0, slots, from, |slots|, who[k]);
    }
  }

  /** Room for `more` further rabbits. */
  ghost predicate Budget(w: World, more: nat) {
    |Board.Cells(w.snakes)| + |w.rabbits| + more <= Board.Area(w.sz)
  }

  lemma BudgetNext(w: World, more: nat, i: nat, d: Dir, cell: Coord)
    requires Budget(w, more + 1) && Snakes.Movable(w, i)
    ensures Budget(Snakes.Moved(w, i, d, cell), more)
  {
    Board.MoveTakesRoom(w, i, d, cell);
  }

  // ----- how much room a frame takes -----

  lemma {:induction false} MovesTakeRoom(w: World, acts: seq<Act>)
    requires Snakes.Legal(w, acts) && forall k :: 0 <= k < |acts| ==> acts[k].Move?
    ensures |Board.Busy(Snakes.After(w, acts))| <= |Board.Busy(w)| + |acts|
    decreases |acts|
  {
    if acts != [] {
      var a := acts[0];
      Board.MoveTakesRoom(w, a.i, a.d, a.cell);
      MovesTakeRoom(Snakes.Do(w, a), acts[1..]);
    }
  }

  lemma {:induction false} BumpsTakeNone(w: World, k: nat)
    requires k <= |w.snakes| && Snakes.Bodied(w.snakes)
    ensures |Board.Busy(Snakes.BumpFrom(w, k))| <= |Board.Busy(w)|
    decreases |w.snakes| - k
  {
    if k < |w.snakes| {
      var w' := Snakes.Bumped(w, k);
      Board.CellsSet(w.snakes, k, w'.snakes[k]);
      assert |w'.snakes[k].body| <= |w.snakes[k].body|;
      BumpsTakeNone(w', k + 1);
    }
  }

  /** A frame takes room for one more cell per move at most. */
  lemma RoundTakesRoom(w: World, r: Frames.Round, w': World)
    requires Frames.Frame(w, r, w')
    ensures |Board.Busy(w')| <= |Board.Busy(w)| + |r.moves|
  {
    if !r.paused {
      MovesTakeRoom(w, r.moves);
      BumpsTakeNone(Snakes.After(w, r.moves), 0);
    }
  }

  // ----- one turn after the other -----

  ghost predicate UpTo(w0: World, acts: seq<Act>, w: World, slots: seq<nat>, turn: nat) {
    && Going(w0, acts, w) && |acts| <= turn <= |slots|
    && (forall j :: turn <= j < |slots| ==> Unmoved(acts, slots[j]))
  }

  /** After a controller's turn, with or without a move, the next one may have its turn. */
  lemma TurnTaken(w0: World, acts: seq<Act>, w: World, w': World, slots: seq<nat>, turn: nat,
                  moved: bool, d: Dir, cell: Coord)
    returns (acts': seq<Act>)
    requires UpTo(w0, acts, w, slots, turn) && turn < |slots|
    requires forall j, k :: 0 <= j < k < |slots| ==> slots[j] != slots[k]
    requires if moved then Snakes.CanMove(w, slots[turn], d, cell) && w.snakes[slots[turn]].alive
                           && w' == Snakes.Moved(w, slots[turn], d, cell)
             else w' == w
    ensures UpTo(w0, acts', w', slots, turn + 1)
    ensures acts <= acts' == if moved then acts + [Snakes.Move(slots[turn], d, cell)] else acts
    ensures moved ==> Asked(acts', slots[turn], d)
  {
    acts' := acts;
    if moved {
      acts' := acts + [Snakes.Move(slots[turn], d, cell)];
      GoingOn(w0, acts, w, slots[turn], d, cell);
      assert acts'[|acts|] == Snakes.Move(slots[turn], d, cell);
    }
  }

  /** The snakes of the controllers from `turn` on are as they were in the snapshot. */
  ghost predicate Waiting(snapshot: World, w: World, slots: seq<nat>, turn: nat) {
    forall j :: turn <= j < |slots| && slots[j] < |w.snakes| ==>
      slots[j] < |snapshot.snakes| && snapshot.snakes[slots[j]] == w.snakes[slots[j]]
  }

  lemma WaitingNext(snapshot: World, w: World, w': World, slots: seq<nat>, turn: nat,
                    moved: bool, d: Dir, cell: Coord)
    requires Waiting(snapshot, w, slots, turn) && turn < |slots|
    requires forall j, k :: 0 <= j < k < |slots| ==> slots[j] != slots[k]
    requires if moved then Snakes.CanMove(w, slots[turn], d, cell) && w' == Snakes.Moved(w, slots[turn], d, cell)
             else w' == w
    ensures Waiting(snapshot, w', slots, turn + 1)
  {
  }

  /** Nobody has moved: the snakes whose controllers wait are as at the start of the frame. */
  lemma WaitingSince(w0: World, acts: seq<Act>, w: World, slots: seq<nat>, turn: nat)
    requires UpTo(w0, acts, w, slots, turn)
    ensures Waiting(w0, w, slots, turn)
  {
  }

  /** At the start of a frame it is the first controller's turn. */
  lemma FirstTurn(w0: World, slots: seq<nat>)
    requires Snakes.WorldOk(w0)
    ensures UpTo(w0, [], w0, slots, 0)
  {
  }

  /** After all turns the bump pass completes the frame. */
  lemma EndOfFrame(w0: World, acts: seq<Act>, mid: World)
    requires Going(w0, acts, mid) && Snakes.WorldOk(w0) && Frames.Apart(w0.snakes)
    ensures Snakes.Bodied(mid.snakes)
    ensures var w := Snakes.BumpFrom(mid, 0);
            && Frames.Frame(w0, Frames.Round(acts, false), w) && Snakes.WorldOk(w) && Frames.Apart(w.snakes)
            && |w.rabbits| == |w0.rabbits|
    ensures acts == [] ==> Frames.Frame(w0, Frames.Round(acts, true), mid) && mid == w0
  {
    assert forall i :: 0 <= i < |mid.snakes| ==> Snakes.SnakeOk(mid.sz, mid.snakes[i]);
    Frames.FrameKeeps(w0, Frames.Round(acts, false), Snakes.BumpFrom(mid, 0));
  }

  // ----- one round after the other -----

  /** Room for a number of rounds in which each of `each` controllers may eat. */
  function RoomFor(rounds: nat, each: nat): nat {
    if rounds == 0 then 0 else RoomFor(rounds - 1, each) + each
  }

  lemma {:induction false} RoomForIs(rounds: nat, each: nat)
    ensures RoomFor(rounds, each) == rounds * each
  {
    if rounds > 0 {
      RoomForIs(rounds - 1, each);
    }
  }

  /** A game of n rounds has led to w, and there is room for `room` more rabbits. */
  ghost predicate PlayedTo(worlds: seq<World>, rounds: seq<Frames.Round>, n: nat, w: World, room: nat) {
    && n == |rounds| && Frames.Game(worlds, rounds) && worlds[n] == w
    && Snakes.WorldOk(w) && Frames.Apart(w.snakes) && Budget(w, room)
  }

  /** The same; quantified, so that it is unfolded only in the lemmas below. */
  ghost predicate Played(worlds: seq<World>, rounds: seq<Frames.Round>, w: World, room: nat) {
    forall n :: n == |rounds| ==> PlayedTo(worlds, rounds, n, w, room)
  }

  lemma PlayedStart(w: World, room: nat)
    requires Playable(w.sz) && Frames.Placed(w.sz, w.snakes) && Frames.Stocked(w) && Budget(w, room)
    ensures Played([w], [], w, room)
  {
    Frames.StartOk(w);
  }

  lemma PlayedIs(worlds: seq<World>, rounds: seq<Frames.Round>, w: World, room: nat)
    requires Played(worlds, rounds, w, room)
    ensures Frames.Game(worlds, rounds) && worlds[|rounds|] == w
    ensures Snakes.WorldOk(w) && Frames.Apart(w.snakes) && Budget(w, room)
  {
    assert PlayedTo(worlds, rounds, |rounds|, w, room);
  }

  lemma PlayedNext(worlds: seq<World>, rounds: seq<Frames.Round>, w: World, r: Frames.Round, w': World,
                   room: nat, each: nat)
    requires Played(worlds, rounds, w, room + each) && Frames.Frame(w, r, w') && |r.moves| <= each
    ensures Played(worlds + [w'], rounds + [r], w', room)
  {
    PlayedIs(worlds, rounds, w, room + each);
    Frames.FrameKeeps(w, r, w');
    RoundTakesRoom(w, r, w');
    Frames.GameNext(worlds, rounds, r, w');
  }
}
