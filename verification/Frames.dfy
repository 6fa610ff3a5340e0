/** Frames of the game: every controller moves its snake at most once, then the views let every
    snake run cutIfBump, in list order. */
module Frames {
  import opened Torus
  import opened Snakes

  /** Alive snakes share no cell and do not cross themselves. */
  ghost predicate Apart(snakes: seq<Snake>) {
    && (forall i :: 0 <= i < |snakes| && snakes[i].alive ==> Distinct(snakes[i].body))
    && (forall i, j, c :: 0 <= i < j < |snakes| && snakes[i].alive && snakes[j].alive && c in snakes[i].body ==>
          c !in snakes[j].body)
  }

  /** The body is what a frame can make of b0 before the cuts: unmoved or moved once. */
  ghost predicate Loose(b0: seq<Coord>, b: seq<Coord>) {
    b != [] && (b <= b0 || b[1..] <= b0)
  }

  /** No cell of another snake, and no other cell of its own, is under the head of snake i. */
  ghost predicate Clear(snakes: seq<Snake>, i: nat)
    requires i < |snakes| && snakes[i].body != []
  {
    && snakes[i].body[0] !in snakes[i].body[1..]
    && (forall j :: 0 <= j < |snakes| && j != i ==> snakes[i].body[0] !in snakes[j].body)
  }

  /** During a frame that began with s0: nobody moved twice, nobody came alive, and the alive
      snakes among the first k have had their check. */
  ghost predicate Passing(s0: seq<Snake>, s: seq<Snake>, k: nat) {
    && |s| == |s0| && k <= |s|
    && (forall i :: 0 <= i < |s| ==> Loose(s0[i].body, s[i].body))
    && (forall i :: 0 <= i < |s| && s[i].alive ==> s0[i].alive)
    && (forall i :: 0 <= i < k && s[i].alive ==> Clear(s, i))
  }

  lemma LooseShrinks(b0: seq<Coord>, b: seq<Coord>, b': seq<Coord>)
    requires Loose(b0, b) && b' <= b && b' != []
    ensures Loose(b0, b')
  {
    assert b'[1..] <= b[1..];
  }

  /** The check of snake k clears it if it stays alive, and spoils no earlier check. */
  lemma CheckOne(s0: seq<Snake>, w: World, k: nat)
    requires WorldOk(w) && Passing(s0, w.snakes, k) && k < |w.snakes|
    ensures Passing(s0, Bumped(w, k).snakes, k + 1)
  {
    var s, s' := w.snakes, Bumped(w, k).snakes;
    BumpedSnakes(w, k);
    LooseShrinks(s0[k].body, s[k].body, s'[k].body);
    forall i | 0 <= i < k + 1 && s'[i].alive ensures Clear(s', i) {
      if i < k {
        assert Clear(s, i);
      } else {
        CutLeavesThree(w.sz, s[k]);
      }
      forall j | 0 <= j < |s'| && j != i ensures s'[i].body[0] !in s'[j].body {
        assert s'[i].body[0] == s[i].body[0];
        assert forall c :: c in s'[j].body ==> c in s[j].body;
      }
    }
  }

  lemma {:induction false} CheckAll(s0: seq<Snake>, w: World, k: nat)
    requires WorldOk(w) && Passing(s0, w.snakes, k)
    ensures var w' := BumpFrom(w, k);
            WorldOk(w') && Passing(s0, w'.snakes, |w'.snakes|) && w'.rabbits == w.rabbits && w'.sz == w.sz
    decreases |w.snakes| - k
  {
    if k < |w.snakes| {
      CheckOne(s0, w, k);
      BumpKeepsWorldOk(w, k);
      CheckAll(s0, Bumped(w, k), k + 1);
    }
  }

  /** Behind the head a loose body has only cells of the old one, in order. */
  lemma LooseTail(b0: seq<Coord>, b: seq<Coord>)
    requires Loose(b0, b)
    ensures forall c :: c in b[1..] ==> c in b0
    ensures Distinct(b0) ==> Distinct(b[1..])
  {
    var d := if b[1..] <= b0 then 0 else 1;
    assert forall k :: 0 <= k < |b[1..]| ==> b[1..][k] == b0[k + d];
  }

  lemma HeadOrOld(b0: seq<Coord>, b: seq<Coord>, c: Coord)
    requires Loose(b0, b)
    ensures c in b ==> c == b[0] || c in b0
  {
    LooseTail(b0, b);
    assert b == [b[0]] + b[1..];
  }

  lemma ClearDistinct(b0: seq<Coord>, b: seq<Coord>)
    requires Loose(b0, b) && Distinct(b0) && b[0] !in b[1..]
    ensures Distinct(b)
  {
    LooseTail(b0, b);
    forall j, k | 0 <= j < k < |b| ensures b[j] != b[k] {
      assert b[k] == b[1..][k - 1];
      if j > 0 { assert b[j] == b[1..][j - 1]; }
    }
  }

  /** When all checks are done, alive snakes are apart again. */
  lemma PassedApart(s0: seq<Snake>, s: seq<Snake>)
    requires Apart(s0) && Passing(s0, s, |s|)
    ensures Apart(s)
  {
    forall i | 0 <= i < |s| && s[i].alive ensures Distinct(s[i].body) {
      assert Clear(s, i);
      ClearDistinct(s0[i].body, s[i].body);
    }
    forall i, j, c | 0 <= i < j < |s| && s[i].alive && s[j].alive && c in s[i].body
      ensures c !in s[j].body
    {
      assert Clear(s, i) && Clear(s, j);
      HeadOrOld(s0[i].body, s[i].body, c);
      HeadOrOld(s0[j].body, s[j].body, c);
    }
  }

  // ----- the moves of a frame -----

  /** So far the snakes in `moved` have moved, once each, and the others have not. */
  ghost predicate Underway(s0: seq<Snake>, s: seq<Snake>, moved: set<nat>) {
    && |s| == |s0|
    && (forall i :: 0 <= i < |s| ==> Loose(s0[i].body, s[i].body))
    && (forall i :: 0 <= i < |s| ==> s[i].alive == s0[i].alive)
    && (forall i :: 0 <= i < |s| && i !in moved ==> s[i] == s0[i])
  }

  lemma MoveUnderway(s0: seq<Snake>, w: World, moved: set<nat>, i: nat, d: Dir, cell: Coord)
    requires Underway(s0, w.snakes, moved) && i !in moved && CanMove(w, i, d, cell)
    ensures Underway(s0, Moved(w, i, d, cell).snakes, moved + {i})
  {
    var b, b' := w.snakes[i].body, Moved(w, i, d, cell).snakes[i].body;
    assert b'[1..] == if Eats(w, i, d) then b else b[..|b| - 1];
  }

  lemma UnderwayPassing(s0: seq<Snake>, s: seq<Snake>, moved: set<nat>)
    requires Underway(s0, s, moved)
    ensures Passing(s0, s, 0)
  {
  }

  /** The moves of one frame: alive snakes, none twice. */
  ghost predicate OneEach(w: World, acts: seq<Act>) {
    && (forall k :: 0 <= k < |acts| ==> acts[k].Move? && acts[k].i < |w.snakes| && w.snakes[acts[k].i].alive)
    && (forall j, k :: 0 <= j < k < |acts| ==> acts[j].i != acts[k].i)
  }

  /** What happens in one frame: the moves, and whether it ended in a pause. */
  datatype Round = Round(moves: seq<Act>, paused: bool)

  /** A frame: its moves, then the bump pass. A pause, in the text view only, leaves the pass
      out, and then nobody has moved. */
  ghost predicate Frame(w: World, r: Round, w': World) {
    && Legal(w, r.moves) && OneEach(w, r.moves)
    && var mid := After(w, r.moves);
       if r.paused then r.moves == [] && w' == w else Bodied(mid.snakes) && w' == BumpFrom(mid, 0)
  }

  lemma {:induction false} MovesUnderway(s0: seq<Snake>, w: World, acts: seq<Act>, moved: set<nat>)
    requires WorldOk(w) && Legal(w, acts) && Underway(s0, w.snakes, moved)
    requires forall k :: 0 <= k < |acts| ==> acts[k].Move? && acts[k].i !in moved
    requires forall j, k :: 0 <= j < k < |acts| ==> acts[j].i != acts[k].i
    ensures var w' := After(w, acts);
            WorldOk(w') && |w'.rabbits| == |w.rabbits| && w'.sz == w.sz && Passing(s0, w'.snakes, 0)
    decreases |acts|
  {
    if acts == [] {
      UnderwayPassing(s0, w.snakes, moved);
    } else {
      var a := acts[0];
      MoveUnderway(s0, w, moved, a.i, a.d, a.cell);
      MoveKeepsWorldOk(w, a.i, a.d, a.cell);
      assert forall k :: 0 <= k < |acts[1..]| ==> acts[1..][k] == acts[k + 1];
      MovesUnderway(s0, Do(w, a), acts[1..], moved + {a.i});
    }
  }

  /** Dead snakes stay dead. */
  ghost predicate NobodyRises(s: seq<Snake>, s': seq<Snake>) {
    |s'| == |s| && forall i :: 0 <= i < |s| && s'[i].alive ==> s[i].alive
  }

  /** At the end of every frame alive snakes are apart, whatever the moves were and whatever was
      cut between the checks; geometry and rabbits are kept too. */
  lemma FrameKeeps(w: World, r: Round, w': World)
    requires WorldOk(w) && Apart(w.snakes) && Frame(w, r, w')
    ensures WorldOk(w') && Apart(w'.snakes)
    ensures |w'.rabbits| == |w.rabbits| && NobodyRises(w.snakes, w'.snakes) && w'.sz == w.sz
  {
    assert forall i :: 0 <= i < |w.snakes| ==> w.snakes[i].body <= w.snakes[i].body;
    MovesUnderway(w.snakes, w, r.moves, {});
    var mid := After(w, r.moves);
    CheckAll(w.snakes, mid, 0);
    PassedApart(w.snakes, BumpFrom(mid, 0).snakes);
  }

  /** Who dies in a frame: with `at` the board when the turn of snake i comes, after all moves and
      the checks of the earlier snakes, it lives on exactly if it lived and its head is then on
      no other snake; and it is cut as its check says. */
  lemma FrameVerdict(w: World, r: Round, w': World, i: nat)
    requires WorldOk(w) && Frame(w, r, w') && !r.paused && i < |w.snakes|
    ensures var mid := After(w, r.moves);
            |mid.snakes| == |w.snakes| == |w'.snakes| && mid.snakes[i].body != [] && Bodied(mid.snakes)
    ensures var mid := After(w, r.moves);
            var at, head := BumpTo(mid, i), mid.snakes[i].body[0];
            && at.snakes[i] == mid.snakes[i]
            && (w'.snakes[i].alive <==>
                  w.snakes[i].alive && forall j :: 0 <= j < |at.snakes| && j != i ==> head !in at.snakes[j].body)
            && if exists j :: 0 <= j < i && head in at.snakes[j].body then w'.snakes[i].body == mid.snakes[i].body
               else CutAtHead(mid.snakes[i].body, w'.snakes[i].body)
  {
    var mid := After(w, r.moves);
    var n := |mid.snakes|;
    MovesKeepCount(w, r.moves);
    MovesKeepAlive(w, r.moves, i);
    BumpToThenFrom(mid, n);
    BumpToKeeps(mid, i, n);
    BumpVerdict(BumpTo(mid, i), i);
  }

  lemma {:induction false} MovesKeepAlive(w: World, acts: seq<Act>, i: nat)
    requires Legal(w, acts) && i < |w.snakes| && forall k :: 0 <= k < |acts| ==> acts[k].Move?
    ensures |After(w, acts).snakes| == |w.snakes| && After(w, acts).snakes[i].alive == w.snakes[i].alive
    decreases |acts|
  {
    if acts != [] {
      MovesKeepAlive(Do(w, acts[0]), acts[1..], i);
    }
  }

  // ----- whole games -----

  /** The start: snakes of one cell each, on different cells of the board. */
  ghost predicate Placed(sz: Size, snakes: seq<Snake>) {
    && (forall i :: 0 <= i < |snakes| ==>
          |snakes[i].body| == 1 && OnBoard(sz, snakes[i].body[0]) && snakes[i].prevD == Right && snakes[i].alive)
    && (forall i, j :: 0 <= i < j < |snakes| ==> snakes[i].body[0] != snakes[j].body[0])
  }

  /** Rabbit k was put on a cell that was free with the rabbits before it. */
  ghost predicate PutFree(w: World, k: nat) {
    k < |w.rabbits| && Free(w.(rabbits := w.rabbits[..k]), w.rabbits[k])
  }

  /** Rabbits put on the board one after the other. */
  ghost predicate Stocked(w: World) {
    forall k :: 0 <= k < |w.rabbits| ==> PutFree(w, k)
  }

  lemma {:induction false} StartOk(w: World)
    requires Playable(w.sz) && Placed(w.sz, w.snakes) && Stocked(w)
    ensures WorldOk(w) && Apart(w.snakes)
  {
    forall j, k | 0 <= j < k < |w.rabbits| ensures w.rabbits[j] != w.rabbits[k] {
      assert PutFree(w, k);
      assert w.rabbits[..k][j] in w.rabbits[..k];
    }
    forall k | 0 <= k < |w.rabbits|
      ensures InDrawRange(w.sz, w.rabbits[k]) && !Covered(w.snakes, w.rabbits[k])
    {
      assert PutFree(w, k);
    }
    forall i, j, c | 0 <= i < j < |w.snakes| && c in w.snakes[i].body ensures c !in w.snakes[j].body {
      assert c == w.snakes[i].body[0];
      assert forall c' :: c' in w.snakes[j].body ==> c' == w.snakes[j].body[0];
    }
  }

  /** Worlds that each follow from the one before by a frame. */
  ghost predicate Framed(worlds: seq<World>, rounds: seq<Round>) {
    && |worlds| == |rounds| + 1
    && forall k :: 0 <= k < |rounds| ==> Frame(worlds[k], rounds[k], worlds[k + 1])
  }

  /** A game: a start, and then the frames. */
  ghost predicate Game(worlds: seq<World>, rounds: seq<Round>) {
    && Framed(worlds, rounds) && Playable(worlds[0].sz)
    && Placed(worlds[0].sz, worlds[0].snakes) && Stocked(worlds[0])
  }

  lemma GameNext(worlds: seq<World>, rounds: seq<Round>, r: Round, w': World)
    requires Game(worlds, rounds) && Frame(worlds[|rounds|], r, w')
    ensures Game(worlds + [w'], rounds + [r])
  {
    var worlds', rounds' := worlds + [w'], rounds + [r];
    forall k | 0 <= k < |rounds'| ensures Frame(worlds'[k], rounds'[k], worlds'[k + 1]) {
      if k < |rounds| {
        assert worlds'[k] == worlds[k] && worlds'[k + 1] == worlds[k + 1] && rounds'[k] == rounds[k];
      }
    }
  }

  /** In every game, at the end of every frame: alive snakes are apart, every snake is connected
      and unfolded on the board, rabbits are distinct, uncovered and as many as at the start, and
      nobody comes back to life. */
  lemma {:induction false} GameSafe(worlds: seq<World>, rounds: seq<Round>, k: nat)
    requires Game(worlds, rounds) && k < |worlds|
    ensures var w, w0 := worlds[k], worlds[0];
            && WorldOk(w) && Apart(w.snakes)
            && |w.rabbits| == |w0.rabbits| && NobodyRises(w0.snakes, w.snakes) && w.sz == w0.sz
    ensures k > 0 ==> NobodyRises(worlds[k - 1].snakes, worlds[k].snakes)
  {
    if k == 0 {
      StartOk(worlds[0]);
    } else {
      GameSafe(worlds, rounds, k - 1);
      FrameKeeps(worlds[k - 1], rounds[k - 1], worlds[k]);
    }
  }

  // ----- a game as one sequence of moves and checks -----

  /** The checks of snakes k to n - 1, in order. */
  function Checks(k: nat, n: nat): seq<Act>
    requires k <= n
    decreases n - k
  {
    if k == n then [] else [Bump(k)] + Checks(k + 1, n)
  }

  function Flat(r: Round, n: nat): seq<Act> {
    r.moves + (if r.paused then [] else Checks(0, n))
  }

  /** All moves and checks of some rounds with n snakes, in order. */
  function Run(rounds: seq<Round>, n: nat): seq<Act> {
    if rounds == [] then [] else Flat(rounds[0], n) + Run(rounds[1..], n)
  }

  lemma {:induction false} BumpsAreChecks(w: World, k: nat)
    requires k <= |w.snakes| && Bodied(w.snakes)
    ensures Legal(w, Checks(k, |w.snakes|)) && After(w, Checks(k, |w.snakes|)) == BumpFrom(w, k)
    decreases |w.snakes| - k
  {
    if k < |w.snakes| {
      BumpsAreChecks(Bumped(w, k), k + 1);
      assert Checks(k, |w.snakes|)[1..] == Checks(k + 1, |w.snakes|);
    }
  }

  lemma FrameIsFlat(w: World, r: Round, w': World)
    requires Frame(w, r, w')
    ensures Legal(w, Flat(r, |w.snakes|)) && After(w, Flat(r, |w.snakes|)) == w'
  {
    if r.paused {
      assert Flat(r, |w.snakes|) == [];
    } else {
      var mid := After(w, r.moves);
      MovesKeepCount(w, r.moves);
      BumpsAreChecks(mid, 0);
      RunsAppend(w, r.moves, Checks(0, |w.snakes|));
    }
  }

  lemma {:induction false} MovesKeepCount(w: World, acts: seq<Act>)
    requires Legal(w, acts)
    ensures |After(w, acts).snakes| == |w.snakes|
    decreases |acts|
  {
    if acts != [] {
      MovesKeepCount(Do(w, acts[0]), acts[1..]);
    }
  }

  lemma {:induction false} GameIsRun(worlds: seq<World>, rounds: seq<Round>, j: nat, k: nat)
    requires Framed(worlds, rounds) && j <= k <= |rounds|
    ensures var run := Run(rounds[j..k], |worlds[j].snakes|);
            Legal(worlds[j], run) && After(worlds[j], run) == worlds[k]
    decreases k - j
  {
    if j < k {
      var n := |worlds[j].snakes|;
      FrameIsFlat(worlds[j], rounds[j], worlds[j + 1]);
      MovesKeepCount(worlds[j], Flat(rounds[j], n));
      GameIsRun(worlds, rounds, j + 1, k);
      assert rounds[j..k][1..] == rounds[j + 1..k];
      RunsAppend(worlds[j], Flat(rounds[j], n), Run(rounds[j + 1..k], n));
    }
  }

  /** In every game, between any two ends of frames j and k: the moves and checks of the rounds
      in between lead from one world to the other; every body is a prefix of its snake's heads
      in these rounds, newest first, followed by what it had; and a snake with two cells never
      has fewer again. */
  lemma GameHistory(worlds: seq<World>, rounds: seq<Round>, j: nat, k: nat, i: nat, past: seq<Coord>)
    requires Game(worlds, rounds) && j <= k < |worlds|
    requires i < |worlds[j].snakes| && worlds[j].snakes[i].body <= past
    ensures var run := Run(rounds[j..k], |worlds[j].snakes|);
            && Legal(worlds[j], run) && After(worlds[j], run) == worlds[k]
            && |worlds[k].snakes| == |worlds[j].snakes|
            && worlds[k].snakes[i].body <= Heads(worlds[j], run, i, past)
            && (|worlds[j].snakes[i].body| >= 2 ==> |worlds[k].snakes[i].body| >= 2)
  {
    GameIsRun(worlds, rounds, j, k);
    GameSafe(worlds, rounds, j);
    RunKeeps(worlds[j], Run(rounds[j..k], |worlds[j].snakes|), i, past);
  }
}
