/** The snake game on values: what Snake::move, Snake::cutIfBump and a whole frame do to the
    board, and what they keep. The classes of module Game are proved against this. */
module Snakes {
  import opened Torus

  datatype Snake = Snake(body: seq<Coord>, prevD: Dir, alive: bool)

  datatype World = World(sz: Size, snakes: seq<Snake>, rabbits: seq<Coord>)

  // ----- moving -----

  /** The direction a snake really takes: its old one if asked for none or for a reversal. */
  function Turn(prevD: Dir, d: Dir): Dir {
    var e := if d == Def then prevD else d;
    if Opposite(e, prevD) then prevD else e
  }

  function HeadAfter(sz: Size, s: Snake, d: Dir): Coord
    requires sz.rows > 0 && sz.cols > 0 && s.body != []
  {
    Step(sz, s.body[0], Turn(s.prevD, d))
  }

  /** The snake after a move; a fed snake keeps its tail. */
  function MovedSnake(sz: Size, s: Snake, d: Dir, fed: bool): Snake
    requires sz.rows > 0 && sz.cols > 0 && s.body != []
  {
    Snake([HeadAfter(sz, s, d)] + (if fed then s.body else s.body[..|s.body| - 1]), Turn(s.prevD, d), s.alive)
  }

  ghost predicate Covered(snakes: seq<Snake>, c: Coord) {
    exists i :: 0 <= i < |snakes| && c in snakes[i].body
  }

  /** The cells createRabbitRandom draws from: neither the last row nor the last column. */
  predicate InDrawRange(sz: Size, c: Coord) {
    2 <= c.first < sz.rows - 1 && 2 <= c.second < sz.cols - 1
  }

  /** Cells that createRabbitRandom accepts. */
  ghost predicate Free(w: World, c: Coord) {
    InDrawRange(w.sz, c) && !Covered(w.snakes, c) && c !in w.rabbits
  }

  /** The list without the first rabbit on a cell. */
  function Without(rabbits: seq<Coord>, c: Coord): (r: seq<Coord>)
    requires c in rabbits
    ensures |r| == |rabbits| - 1
  {
    if rabbits[0] == c then rabbits[1..] else [rabbits[0]] + Without(rabbits[1..], c)
  }

  ghost predicate Eats(w: World, i: nat, d: Dir)
    requires Movable(w, i)
  {
    HeadAfter(w.sz, w.snakes[i], d) in w.rabbits
  }

  predicate Movable(w: World, i: nat) {
    w.sz.rows > 0 && w.sz.cols > 0 && i < |w.snakes| && w.snakes[i].body != []
  }

  /** The board between the removal of the eaten rabbit and the creation of the new one. */
  ghost function Eaten(w: World, i: nat, d: Dir): World
    requires Movable(w, i) && Eats(w, i, d)
  {
    var head := HeadAfter(w.sz, w.snakes[i], d);
    w.(snakes := w.snakes[i := MovedSnake(w.sz, w.snakes[i], d, true)], rabbits := Without(w.rabbits, head))
  }

  /** Snake::move of snake i; `cell` is where a new rabbit appears, should one be eaten. */
  ghost function Moved(w: World, i: nat, d: Dir, cell: Coord): World
    requires Movable(w, i)
  {
    if Eats(w, i, d) then var e := Eaten(w, i, d); e.(rabbits := e.rabbits + [cell])
    else w.(snakes := w.snakes[i := MovedSnake(w.sz, w.snakes[i], d, false)])
  }

  ghost predicate CanMove(w: World, i: nat, d: Dir, cell: Coord) {
    Movable(w, i) && (Eats(w, i, d) ==> Free(Eaten(w, i, d), cell))
  }

  // ----- bumping -----

  /** The body up to the first cell that repeats the head. */
  function FirstRepeat(body: seq<Coord>, k: nat): (r: nat)
    requires 1 <= k <= |body|
    ensures k <= r <= |body| && body[0] !in body[k..r]
    ensures r < |body| ==> body[r] == body[0]
    decreases |body| - k
  {
    if k == |body| || body[k] == body[0] then k
    else
      var r := FirstRepeat(body, k + 1);
      assert body[k..r] == [body[k]] + body[k + 1..r];
      r
  }

  function Cut(body: seq<Coord>): seq<Coord>
    requires body != []
  {
    body[..FirstRepeat(body, 1)]
  }

  /** Whether the head of snake i lies on another snake with an index in lo..hi. */
  ghost predicate Hits(snakes: seq<Snake>, i: nat, lo: nat, hi: nat)
    requires i < |snakes| && hi <= |snakes| && snakes[i].body != []
  {
    exists j :: lo <= j < hi && j != i && snakes[i].body[0] in snakes[j].body
  }

  /** Snake::cutIfBump: a hit on an earlier snake returns before the own body is cut. */
  ghost function CutIfBump(snakes: seq<Snake>, i: nat): (bool, seq<Coord>)
    requires i < |snakes| && snakes[i].body != []
  {
    if Hits(snakes, i, 0, i) then (true, snakes[i].body)
    else (Hits(snakes, i, i, |snakes|), Cut(snakes[i].body))
  }

  /** One turn of the loop over the snakes in a view: cut, and die if bumped. */
  ghost function Bumped(w: World, i: nat): World
    requires i < |w.snakes| && w.snakes[i].body != []
  {
    var (hit, body) := CutIfBump(w.snakes, i);
    var s := w.snakes[i];
    w.(snakes := w.snakes[i := Snake(body, s.prevD, s.alive && !hit)])
  }

  lemma BumpedIs(w: World, i: nat, hit: bool, body: seq<Coord>)
    requires i < |w.snakes| && w.snakes[i].body != [] && (hit, body) == CutIfBump(w.snakes, i)
    ensures var s := w.snakes[i];
            Bumped(w, i) == w.(snakes := w.snakes[i := Snake(body, s.prevD, s.alive && !hit)])
  {
  }

  ghost predicate Bodied(snakes: seq<Snake>) {
    forall i :: 0 <= i < |snakes| ==> snakes[i].body != []
  }

  /** The pass over the snakes from index k on, in list order. */
  ghost function BumpFrom(w: World, k: nat): World
    requires k <= |w.snakes| && Bodied(w.snakes)
    decreases |w.snakes| - k
  {
    if k == |w.snakes| then w else BumpFrom(Bumped(w, k), k + 1)
  }

  /** The board after the checks of the first k snakes. */
  ghost function BumpTo(w: World, k: nat): (r: World)
    requires k <= |w.snakes| && Bodied(w.snakes)
    ensures |r.snakes| == |w.snakes| && Bodied(r.snakes)
    ensures forall i :: k <= i < |w.snakes| ==> r.snakes[i] == w.snakes[i]
  {
    if k == 0 then w else Bumped(BumpTo(w, k - 1), k - 1)
  }

  lemma {:induction false} BumpToThenFrom(w: World, k: nat)
    requires k <= |w.snakes| && Bodied(w.snakes)
    ensures BumpFrom(BumpTo(w, k), k) == BumpFrom(w, 0)
  {
    if k > 0 {
      BumpToThenFrom(w, k - 1);
    }
  }

  /** Checks of later snakes do not change snake i. */
  lemma {:induction false} BumpToKeeps(w: World, i: nat, k: nat)
    requires i < k <= |w.snakes| && Bodied(w.snakes)
    ensures BumpTo(w, k).snakes[i] == BumpTo(w, i + 1).snakes[i]
  {
    if i + 1 < k {
      BumpToKeeps(w, i, k - 1);
    }
  }

  // ----- geometry -----

  ghost predicate NextTo(sz: Size, a: Coord, b: Coord)
    requires sz.rows > 0 && sz.cols > 0
  {
    exists d :: d != Def && a == Step(sz, b, d)
  }

  /** Cell k is one step behind the cell before it. */
  ghost predicate Linked(sz: Size, body: seq<Coord>, k: nat)
    requires sz.rows > 0 && sz.cols > 0
  {
    1 <= k < |body| && NextTo(sz, body[k - 1], body[k])
  }

  /** The cell two before cell k is a different one. */
  predicate Unfolded(body: seq<Coord>, k: nat) {
    2 <= k < |body| && body[k] != body[k - 2]
  }

  /** A body that moving can make: on the board, each cell one step from the cell before it,
      no three cells folded, and the head one step of prevD from the neck. */
  ghost predicate SnakeOk(sz: Size, s: Snake)
    requires Playable(sz)
  {
    && s.body != [] && s.prevD != Def
    && (forall k :: 0 <= k < |s.body| ==> OnBoard(sz, s.body[k]))
    && (forall k :: 1 <= k < |s.body| ==> Linked(sz, s.body, k))
    && (forall k :: 2 <= k < |s.body| ==> Unfolded(s.body, k))
    && (|s.body| >= 2 ==> s.body[0] == Step(sz, s.body[1], s.prevD))
  }

  ghost predicate Distinct(s: seq<Coord>) {
    forall j, k :: 0 <= j < k < |s| ==> s[j] != s[k]
  }

  /** Rabbits are pairwise distinct, in the drawing range, and on no snake, alive or dead. */
  ghost predicate RabbitsOk(w: World) {
    && Distinct(w.rabbits)
    && (forall k :: 0 <= k < |w.rabbits| ==> InDrawRange(w.sz, w.rabbits[k]))
    && (forall k :: 0 <= k < |w.rabbits| ==> !Covered(w.snakes, w.rabbits[k]))
  }

  ghost predicate WorldOk(w: World) {
    && Playable(w.sz)
    && (forall i :: 0 <= i < |w.snakes| ==> SnakeOk(w.sz, w.snakes[i]))
    && RabbitsOk(w)
  }

  lemma TurnProper(prevD: Dir, d: Dir)
    requires prevD != Def
    ensures Turn(prevD, d) != Def && !Opposite(Turn(prevD, d), prevD)
  {
  }

  /** A moved snake is again one that moving can make. It never folds back on its neck. */
  lemma MovedSnakeOk(sz: Size, s: Snake, d: Dir, fed: bool)
    requires Playable(sz) && SnakeOk(sz, s)
    ensures SnakeOk(sz, MovedSnake(sz, s, d, fed))
    ensures var s' := MovedSnake(sz, s, d, fed);
            && s'.prevD == (if d == Def || d == Reverse(s.prevD) then s.prevD else d)
            && s'.body[0] == Step(sz, s.body[0], s'.prevD) && s'.alive == s.alive
            && s'.body[1..] == if fed then s.body else s.body[..|s.body| - 1]
  {
    var s' := MovedSnake(sz, s, d, fed);
    TurnProper(s.prevD, d);
    StepIs(sz, s.body[0], s'.prevD);
    if |s.body| >= 2 {
      StepBack(sz, s.body[1], s.prevD, s'.prevD);
    }
    forall k | 1 <= k < |s'.body| ensures Linked(sz, s'.body, k) {
      if k > 1 { assert Linked(sz, s.body, k - 1); }
    }
    forall k | 2 <= k < |s'.body| ensures Unfolded(s'.body, k) {
      if k > 2 { assert Unfolded(s.body, k - 1); }
    }
  }

  /** Neighbours in a body differ; with the fold condition any three in a row do. */
  lemma ThreeInARow(sz: Size, s: Snake, k: nat)
    requires Playable(sz) && SnakeOk(sz, s) && k + 1 < |s.body|
    ensures s.body[k] != s.body[k + 1]
    ensures k + 2 < |s.body| ==> s.body[k] != s.body[k + 2] && s.body[k + 1] != s.body[k + 2]
  {
    assert Linked(sz, s.body, k + 1);
    var d :| d != Def && s.body[k] == Step(sz, s.body[k + 1], d);
    StepInjective(sz, s.body[k + 1], d, Def);
    if k + 2 < |s.body| {
      assert Unfolded(s.body, k + 2) && Linked(sz, s.body, k + 2);
      var e :| e != Def && s.body[k + 1] == Step(sz, s.body[k + 2], e);
      StepInjective(sz, s.body[k + 2], e, Def);
    }
  }

  /** A cut keeps a prefix; if it cuts at all it leaves at least three cells. */
  lemma CutLeavesThree(sz: Size, s: Snake)
    requires Playable(sz) && SnakeOk(sz, s)
    ensures Cut(s.body) <= s.body && Cut(s.body) != []
    ensures Cut(s.body) == s.body || |Cut(s.body)| >= 3
    ensures Cut(s.body)[0] !in Cut(s.body)[1..]
  {
    var r := FirstRepeat(s.body, 1);
    assert Cut(s.body)[1..] == s.body[1..r];
    if r < |s.body| {
      ThreeInARow(sz, s, 0);
    }
  }

  lemma PrefixOk(sz: Size, s: Snake, n: nat, alive: bool)
    requires Playable(sz) && SnakeOk(sz, s) && 1 <= n <= |s.body|
    ensures SnakeOk(sz, Snake(s.body[..n], s.prevD, alive))
  {
    assert forall k :: 1 <= k < n ==> Linked(sz, s.body, k) ==> Linked(sz, s.body[..n], k);
    assert forall k :: 2 <= k < n ==> Unfolded(s.body, k) ==> Unfolded(s.body[..n], k);
  }

  // ----- rabbits -----

  lemma {:induction false} WithoutIs(rabbits: seq<Coord>, c: Coord)
    requires c in rabbits
    ensures forall x :: x in Without(rabbits, c) ==> x in rabbits
    ensures Distinct(rabbits) ==> Distinct(Without(rabbits, c)) && c !in Without(rabbits, c)
  {
    if rabbits[0] != c {
      WithoutIs(rabbits[1..], c);
      var rest := Without(rabbits[1..], c);
      if Distinct(rabbits) {
        assert Distinct(rabbits[1..]) by {
          forall j, k | 0 <= j < k < |rabbits[1..]| ensures rabbits[1..][j] != rabbits[1..][k] {
            assert rabbits[j + 1] != rabbits[k + 1];
          }
        }
        assert rabbits[0] !in rabbits[1..];
      }
    } else if Distinct(rabbits) {
      forall j, k | 0 <= j < k < |rabbits[1..]| ensures rabbits[1..][j] != rabbits[1..][k] {
        assert rabbits[j + 1] != rabbits[k + 1];
      }
    }
  }

  /** Moving a snake covers at most its new head in addition. */
  lemma CoveredAfterMove(sz: Size, snakes: seq<Snake>, i: nat, d: Dir, fed: bool, c: Coord)
    requires sz.rows > 0 && sz.cols > 0 && i < |snakes| && snakes[i].body != []
    ensures Covered(snakes[i := MovedSnake(sz, snakes[i], d, fed)], c) ==>
              Covered(snakes, c) || c == HeadAfter(sz, snakes[i], d)
  {
    var s' := snakes[i := MovedSnake(sz, snakes[i], d, fed)];
    if Covered(s', c) {
      var j :| 0 <= j < |s'| && c in s'[j].body;
      if j != i {
        assert c in snakes[j].body;
      } else if c != HeadAfter(sz, snakes[i], d) {
        assert c in snakes[i].body;
      }
    }
  }

  lemma MoveKeepsRabbits(w: World, i: nat, d: Dir, cell: Coord)
    requires RabbitsOk(w) && CanMove(w, i, d, cell)
    ensures RabbitsOk(Moved(w, i, d, cell)) && |Moved(w, i, d, cell).rabbits| == |w.rabbits|
  {
    var w', head := Moved(w, i, d, cell), HeadAfter(w.sz, w.snakes[i], d);
    var kept := if Eats(w, i, d) then Without(w.rabbits, head) else w.rabbits;
    if Eats(w, i, d) { WithoutIs(w.rabbits, head); }
    forall k | 0 <= k < |kept| ensures InDrawRange(w.sz, kept[k]) && !Covered(w'.snakes, kept[k]) {
      assert kept[k] in kept && kept[k] in w.rabbits;
      CoveredAfterMove(w.sz, w.snakes, i, d, Eats(w, i, d), kept[k]);
    }
  }

  // ----- any sequence of moves and bumps -----

  datatype Act = Move(i: nat, d: Dir, cell: Coord) | Bump(i: nat)

  ghost predicate Can(w: World, a: Act) {
    match a
    case Move(i, d, cell) => CanMove(w, i, d, cell)
    case Bump(i) => i < |w.snakes| && w.snakes[i].body != []
  }

  ghost function Do(w: World, a: Act): World
    requires Can(w, a)
  {
    match a
    case Move(i, d, cell) => Moved(w, i, d, cell)
    case Bump(i) => Bumped(w, i)
  }

  ghost predicate Legal(w: World, acts: seq<Act>)
    decreases |acts|
  {
    acts == [] || (Can(w, acts[0]) && Legal(Do(w, acts[0]), acts[1..]))
  }

  ghost function After(w: World, acts: seq<Act>): World
    requires Legal(w, acts)
    decreases |acts|
  {
    if acts == [] then w else After(Do(w, acts[0]), acts[1..])
  }

  /** Acts one after the other: first a, then b. */
  lemma {:induction false} RunsAppend(w: World, a: seq<Act>, b: seq<Act>)
    requires Legal(w, a) && Legal(After(w, a), b)
    ensures Legal(w, a + b) && After(w, a + b) == After(After(w, a), b)
    decreases |a|
  {
    if a == [] {
      assert a + b == b;
    } else {
      RunsAppend(Do(w, a[0]), a[1..], b);
      assert (a + b)[1..] == a[1..] + b;
    }
  }

  lemma OneMoreAct(w: World, acts: seq<Act>, a: Act)
    requires Legal(w, acts) && Can(After(w, acts), a)
    ensures Legal(w, acts + [a]) && After(w, acts + [a]) == Do(After(w, acts), a)
  {
    assert [a][1..] == [];
    RunsAppend(w, acts, [a]);
  }

  lemma BumpedSnakes(w: World, k: nat)
    requires WorldOk(w) && k < |w.snakes|
    ensures var s, s' := w.snakes[k], Bumped(w, k).snakes[k];
            s'.body != [] && s'.body <= s.body && (s'.body == s.body || |s'.body| >= 3) && SnakeOk(w.sz, s')
  {
    var s, s' := w.snakes[k], Bumped(w, k).snakes[k];
    CutLeavesThree(w.sz, s);
    assert s.body == s.body[..|s.body|];
    PrefixOk(w.sz, s, |s'.body|, s'.alive);
  }

  /** Who dies at its check, and what is cut: snake k of a board lives on exactly if it lived and
      its head is on no other snake. With an earlier snake under its head its body stays as it
      is; otherwise it is cut right before the first cell that repeats the head. */
  lemma BumpVerdict(w: World, k: nat)
    requires k < |w.snakes| && w.snakes[k].body != []
    ensures var s, s', head := w.snakes[k], Bumped(w, k).snakes[k], w.snakes[k].body[0];
            && Bumped(w, k) == w.(snakes := w.snakes[k := s']) && s'.prevD == s.prevD
            && (s'.alive <==> s.alive && forall j :: 0 <= j < |w.snakes| && j != k ==> head !in w.snakes[j].body)
            && if exists j :: 0 <= j < k && head in w.snakes[j].body then s'.body == s.body
               else CutAtHead(s.body, s'.body)
  {
    var s := w.snakes[k];
    if !Hits(w.snakes, k, 0, k) {
      CutIsAtHead(s.body);
    }
  }

  /** The longest prefix whose rest does not contain the head. */
  ghost predicate CutAtHead(body: seq<Coord>, kept: seq<Coord>) {
    && 0 < |kept| <= |body| && kept == body[..|kept|]
    && (forall k :: 1 <= k < |kept| ==> kept[k] != body[0])
    && (|kept| < |body| ==> body[|kept|] == body[0])
  }

  lemma CutIsAtHead(body: seq<Coord>)
    requires body != []
    ensures CutAtHead(body, Cut(body))
  {
    var r := FirstRepeat(body, 1);
    forall k | 1 <= k < r ensures body[k] != body[0] {
      assert body[k] == body[1..r][k - 1];
    }
  }

  lemma BumpKeepsWorldOk(w: World, k: nat)
    requires WorldOk(w) && k < |w.snakes|
    ensures WorldOk(Bumped(w, k)) && Bumped(w, k).rabbits == w.rabbits
  {
    var w' := Bumped(w, k);
    BumpedSnakes(w, k);
    forall r | 0 <= r < |w.rabbits| ensures !Covered(w'.snakes, w.rabbits[r]) {
      ShrunkCovers(w.snakes, k, w'.snakes[k], w.rabbits[r]);
    }
  }

  lemma ShrunkCovers(snakes: seq<Snake>, k: nat, s: Snake, c: Coord)
    requires k < |snakes| && s.body <= snakes[k].body
    ensures Covered(snakes[k := s], c) ==> Covered(snakes, c)
  {
    if Covered(snakes[k := s], c) {
      var j :| 0 <= j < |snakes| && c in snakes[k := s][j].body;
      assert c in snakes[j].body;
    }
  }

  lemma MoveKeepsWorldOk(w: World, i: nat, d: Dir, cell: Coord)
    requires WorldOk(w) && CanMove(w, i, d, cell)
    ensures WorldOk(Moved(w, i, d, cell)) && |Moved(w, i, d, cell).rabbits| == |w.rabbits|
  {
    MovedSnakeOk(w.sz, w.snakes[i], d, Eats(w, i, d));
    MoveKeepsRabbits(w, i, d, cell);
  }

  /** What a move or a bump does to one snake's length: two cells never become fewer. */
  lemma ActKeepsTwo(w: World, a: Act, i: nat)
    requires WorldOk(w) && Can(w, a) && i < |w.snakes|
    ensures WorldOk(Do(w, a)) && |Do(w, a).snakes| == |w.snakes| && Do(w, a).sz == w.sz
    ensures |Do(w, a).rabbits| == |w.rabbits|
    ensures |w.snakes[i].body| >= 2 ==> |Do(w, a).snakes[i].body| >= 2
  {
    match a
    case Move(j, d, cell) => MoveKeepsWorldOk(w, j, d, cell);
    case Bump(k) => BumpKeepsWorldOk(w, k); BumpedSnakes(w, k);
  }

  /** The heads snake i has had, newest first, when `past` lists the earlier ones. */
  ghost function Heads(w: World, acts: seq<Act>, i: nat, past: seq<Coord>): seq<Coord>
    requires Legal(w, acts)
    decreases |acts|
  {
    if acts == [] then past
    else
      var w' := Do(w, acts[0]);
      var moved := acts[0].Move? && acts[0].i == i && i < |w'.snakes| && w'.snakes[i].body != [];
      Heads(w', acts[1..], i, (if moved then [w'.snakes[i].body[0]] else []) + past)
  }

  lemma ActKeepsPrefix(w: World, a: Act, i: nat, past: seq<Coord>)
    requires WorldOk(w) && Can(w, a) && i < |w.snakes| && w.snakes[i].body <= past
    ensures |Do(w, a).snakes| == |w.snakes|
    ensures var b := Do(w, a).snakes[i].body;
            b != [] && b <= (if a.Move? && a.i == i then [b[0]] else []) + past
  {
    match a
    case Move(j, d, cell) =>
    case Bump(k) => BumpedSnakes(w, k);
  }

  /** For every sequence of moves and bumps, in any order: bodies stay on the board, connected
      and unfolded, rabbits stay distinct, uncovered and as many as they were, two cells never
      become fewer, and every body is a prefix of its snake's heads, newest first. */
  lemma {:induction false} RunKeeps(w: World, acts: seq<Act>, i: nat, past: seq<Coord>)
    requires WorldOk(w) && Legal(w, acts) && i < |w.snakes| && w.snakes[i].body <= past
    ensures var w' := After(w, acts);
            && WorldOk(w') && w'.sz == w.sz
            && |w'.snakes| == |w.snakes| && |w'.rabbits| == |w.rabbits|
            && (|w.snakes[i].body| >= 2 ==> |w'.snakes[i].body| >= 2)
            && w'.snakes[i].body <= Heads(w, acts, i, past)
    decreases |acts|
  {
    if acts != [] {
      var a := acts[0];
      var w' := Do(w, a);
      ActKeepsTwo(w, a, i);
      ActKeepsPrefix(w, a, i, past);
      var b := w'.snakes[i].body;
      RunKeeps(w', acts[1..], i, (if a.Move? && a.i == i then [b[0]] else []) + past);
    }
  }
}
