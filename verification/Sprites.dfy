/** What GUIView::drawSnakes reads off a body: the tail's direction and, for each inner cell,
    whether it is drawn straight or as a corner, and how far the picture is turned. */
module Sprites {
  import opened Torus
  import opened Snakes

  datatype Sprite = Straight(turned: nat) | Corner(turned: nat)

  /** The straight/turn choice for an inner cell. */
  function BodySprite(forward: Dir, backward: Dir): Sprite {
    if Opposite(forward, backward) then
      Straight(if forward == Up || forward == Down then 90 else 0)
    else if (forward == Up && backward == Left) || (forward == Left && backward == Up) then Corner(90)
    else if (forward == Up && backward == Right) || (forward == Right && backward == Up) then Corner(180)
    else if (forward == Down && backward == Right) || (forward == Right && backward == Down) then Corner(270)
    else Corner(0)
  }

  lemma NeighbourDir(sz: Size, s: Snake, k: nat) returns (d: Dir)
    requires Playable(sz) && SnakeOk(sz, s) && 1 <= k < |s.body|
    ensures d != Def && s.body[k - 1] == Step(sz, s.body[k], d)
  {
    assert Linked(sz, s.body, k);
    d :| d != Def && s.body[k - 1] == Step(sz, s.body[k], d);
  }

  /** getTailDir gives the direction of the step from the tail to the cell before it. */
  lemma TailDirDecodes(sz: Size, s: Snake)
    requires Playable(sz) && SnakeOk(sz, s) && |s.body| >= 2
    ensures var n := |s.body|;
            var d := TailDir(sz, s.body[n - 2], s.body[n - 1]);
            d != Def && s.body[n - 2] == Step(sz, s.body[n - 1], d)
  {
    var n := |s.body|;
    var d := NeighbourDir(sz, s, n - 1);
    TailDirInverts(sz, s.body[n - 1], d);
  }

  /** getBodyDir gives the two steps that lead from an inner cell to its neighbours, also across
      the wrap. They are never equal, and opposite exactly where the snake went straight on. */
  lemma BodyDirDecodes(sz: Size, s: Snake, k: nat)
    requires Playable(sz) && SnakeOk(sz, s) && 1 <= k < |s.body| - 1
    ensures var (forward, backward) := BodyDir(sz, s.body[k - 1], s.body[k], s.body[k + 1]);
            && forward != Def && backward != Def && forward != backward
            && Step(sz, s.body[k], forward) == s.body[k + 1]
            && Step(sz, s.body[k], backward) == s.body[k - 1]
            && (Opposite(forward, backward) <==>
                  exists d :: s.body[k - 1] == Step(sz, s.body[k], d) && s.body[k] == Step(sz, s.body[k + 1], d))
  {
    var ahead := NeighbourDir(sz, s, k);
    var behind := NeighbourDir(sz, s, k + 1);
    var c, next := s.body[k], s.body[k + 1];
    StepBack(sz, next, behind, Reverse(behind));
    TowardsInverts(sz, c, ahead);
    TowardsInverts(sz, c, Reverse(behind));
    assert Unfolded(s.body, k + 1);
    forall d | s.body[k - 1] == Step(sz, c, d) && c == Step(sz, next, d) ensures d == ahead == behind {
      StepInjective(sz, c, d, ahead);
      StepInjective(sz, next, d, behind);
    }
  }

  /** A quarter turn clockwise, as the program rotates pictures. */
  function Clockwise(d: Dir): Dir {
    match d
    case Up => Right
    case Right => Down
    case Down => Left
    case Left => Up
    case Def => Def
  }

  function Rotated(d: Dir, degrees: nat): Dir {
    if degrees == 90 then Clockwise(d)
    else if degrees == 180 then Clockwise(Clockwise(d))
    else if degrees == 270 then Clockwise(Clockwise(Clockwise(d)))
    else d
  }

  /** The two sides at which a picture is open: unturned, the straight one left and right, the
      corner left and below. */
  function Openings(s: Sprite): set<Dir> {
    match s
    case Straight(turned) => {Rotated(Left, turned), Rotated(Right, turned)}
    case Corner(turned) => {Rotated(Left, turned), Rotated(Down, turned)}
  }

  /** The picture of an inner cell is open exactly towards its two neighbours. */
  lemma SpriteOpens(forward: Dir, backward: Dir)
    requires forward != Def && backward != Def && forward != backward
    ensures Openings(BodySprite(forward, backward)) == {forward, backward}
  {
  }

  /** The picture tells the shape: inner cells get the same picture exactly if their two
      neighbours lie in the same two directions. */
  lemma SpriteShowsShape(f: Dir, b: Dir, f': Dir, b': Dir)
    requires f != Def && b != Def && f != b && f' != Def && b' != Def && f' != b'
    ensures BodySprite(f, b) == BodySprite(f', b') <==> (f == f' && b == b') || (f == b' && b == f')
  {
  }
}
