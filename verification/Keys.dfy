/** Keyboard input of the text view: getCtrlNum packs a burst of bytes into a control word, and
    Human::fonKey reads a player's request off the word. A byte is a char. */
module Keys {
  import opened Torus

  const ESC: char := '\U{1B}'

  // The word is an int, but every mask and bit lies in its low 16 bits.
  const PAUSE_BIT: bv16 := 0x8000
  const CLOSE_BIT: bv16 := 0x4000
  const WASD_UP: bv16 := 0x800
  const WASD_DOWN: bv16 := 0x400
  const WASD_LEFT: bv16 := 0x200
  const WASD_RIGHT: bv16 := 0x100
  const ARROW_UP: bv16 := 0x80
  const ARROW_DOWN: bv16 := 0x40
  const ARROW_LEFT: bv16 := 0x20
  const ARROW_RIGHT: bv16 := 0x10

  // ----- what a burst of bytes means -----

  /** An escape sequence of three bytes, an escape that begins none, or any other byte. */
  datatype Token = Sequence(last: char) | Escape | Key(letter: char)

  function Tokens(s: string): seq<Token>
    decreases |s|
  {
    if s == "" then []
    else if s[0] != ESC then [Key(s[0])] + Tokens(s[1..])
    else if |s| >= 3 && s[1] == '[' then [Sequence(s[2])] + Tokens(s[3..])
    else [Escape] + Tokens(s[1..])
  }

  function Bytes(ts: seq<Token>): string {
    if ts == [] then ""
    else (match ts[0]
          case Sequence(c) => [ESC, '[', c]
          case Escape => [ESC]
          case Key(c) => [c]) + Bytes(ts[1..])
  }

  /** No byte of the input is lost or read twice. */
  lemma {:induction false} TokensKeepBytes(s: string)
    ensures Bytes(Tokens(s)) == s
    decreases |s|
  {
    if s != "" {
      if s[0] == ESC && |s| >= 3 && s[1] == '[' {
        TokensKeepBytes(s[3..]);
        assert s == [ESC, '[', s[2]] + s[3..];
      } else {
        TokensKeepBytes(s[1..]);
        assert s == [s[0]] + s[1..];
      }
    }
  }

  /** Tokens that reading can give: an escape byte is no letter, and an escape that is followed by
      a bracket and something more begins a sequence. */
  predicate Proper(ts: seq<Token>) {
    ts == [] ||
    (ts[0] != Key(ESC) && !(|ts| >= 3 && ts[0] == Escape && ts[1] == Key('[')) && Proper(ts[1..]))
  }

  lemma FirstToken(s: string)
    requires s != ""
    ensures Tokens(s) != []
    ensures Tokens(s)[0].Key? ==> s[0] == Tokens(s)[0].letter && Tokens(s)[1..] == Tokens(s[1..])
  {
  }

  lemma {:induction false} TokensAreProper(s: string)
    ensures Proper(Tokens(s))
    decreases |s|
  {
    if s != "" {
      if s[0] == ESC && |s| >= 3 && s[1] == '[' {
        TokensAreProper(s[3..]);
      } else {
        TokensAreProper(s[1..]);
        if |s| > 1 { FirstToken(s[1..]); }
      }
    }
  }

  lemma FirstByte(ts: seq<Token>)
    requires ts != []
    ensures Bytes(ts) != "" && (Bytes(ts)[0] == '[' <==> ts[0] == Key('['))
    ensures ts[0].Key? ==> Bytes(ts)[1..] == Bytes(ts[1..])
  {
  }

  /** Proper tokens are read back from their bytes: with TokensKeepBytes and TokensAreProper,
      reading is the one inverse of writing. */
  lemma {:induction false} TokensOfBytes(ts: seq<Token>)
    requires Proper(ts)
    ensures Tokens(Bytes(ts)) == ts
    decreases |ts|
  {
    if ts != [] {
      var s, rest := Bytes(ts), Bytes(ts[1..]);
      TokensOfBytes(ts[1..]);
      match ts[0]
      case Sequence(c) =>
        assert s[3..] == rest;
      case Key(c) =>
        assert s[1..] == rest;
      case Escape =>
        assert s[1..] == rest;
        if |ts| > 1 { FirstByte(ts[1..]); }
    }
  }

  datatype KeySet = Wasd | Arrows

  function ArrowDir(c: char): Dir {
    match c
    case 'A' => Up
    case 'B' => Down
    case 'C' => Right
    case 'D' => Left
    case _ => Def
  }

  function LetterDir(c: char): Dir {
    match c
    case 'A' | 'a' => Left
    case 'S' | 's' => Down
    case 'D' | 'd' => Right
    case 'W' | 'w' => Up
    case _ => Def
  }

  /** What a token says to the player with a key set; Def if it is not for that player. */
  function Says(k: KeySet, t: Token): Dir {
    match t
    case Sequence(c) => if k == Arrows then ArrowDir(c) else Def
    case Key(c) => if k == Wasd then LetterDir(c) else Def
    case Escape => Def
  }

  /** The last direction a player's own keys asked for, Def if there was none. */
  function LastDir(k: KeySet, ts: seq<Token>): Dir {
    if ts == [] then Def
    else
      var d := Says(k, ts[|ts| - 1]);
      if d != Def then d else LastDir(k, ts[..|ts| - 1])
  }

  /** LastDir is what its name says. */
  lemma {:induction false} LastDirIsLast(k: KeySet, ts: seq<Token>, i: nat)
    requires i < |ts| && Says(k, ts[i]) != Def
    requires forall j :: i < j < |ts| ==> Says(k, ts[j]) == Def
    ensures LastDir(k, ts) == Says(k, ts[i])
  {
    if i < |ts| - 1 {
      LastDirIsLast(k, ts[..|ts| - 1], i);
    }
  }

  /** The player's own tokens. */
  function Own(k: KeySet, ts: seq<Token>): seq<Token> {
    if ts == [] then []
    else Own(k, ts[..|ts| - 1]) + (if Says(k, ts[|ts| - 1]) != Def then [ts[|ts| - 1]] else [])
  }

  lemma {:induction false} LastDirOfOwn(k: KeySet, ts: seq<Token>)
    ensures LastDir(k, ts) == LastDir(k, Own(k, ts))
  {
    if ts != [] {
      LastDirOfOwn(k, ts[..|ts| - 1]);
      if Says(k, ts[|ts| - 1]) == Def {
        assert Own(k, ts) == Own(k, ts[..|ts| - 1]);
      }
    }
  }

  // ----- the control word -----

  function ArrowBit(d: Dir): bv16 {
    match d
    case Up => ARROW_UP
    case Down => ARROW_DOWN
    case Left => ARROW_LEFT
    case Right => ARROW_RIGHT
    case Def => 0
  }

  function WasdBit(d: Dir): bv16 {
    match d
    case Up => WASD_UP
    case Down => WASD_DOWN
    case Left => WASD_LEFT
    case Right => WASD_RIGHT
    case Def => 0
  }

  /** The word for a last arrow, a last letter and a pause. */
  function Encode(arrow: Dir, wasd: Dir, pause: bool): bv16 {
    ArrowBit(arrow) | WasdBit(wasd) | (if pause then PAUSE_BIT else 0)
  }

  function Meaning(ts: seq<Token>): bv16 {
    Encode(LastDir(Arrows, ts), LastDir(Wasd, ts), Escape in ts)
  }

  lemma SetArrow(arrow: Dir, wasd: Dir, pause: bool, d: Dir)
    ensures (Encode(arrow, wasd, pause) & 65295) | ArrowBit(d) == Encode(d, wasd, pause)
  {
  }

  lemma SetWasd(arrow: Dir, wasd: Dir, pause: bool, d: Dir)
    ensures (Encode(arrow, wasd, pause) & 61695) | WasdBit(d) == Encode(arrow, d, pause)
  {
  }

  lemma SetPause(arrow: Dir, wasd: Dir, pause: bool)
    ensures Encode(arrow, wasd, pause) | PAUSE_BIT == Encode(arrow, wasd, true)
  {
    OrTwice(ArrowBit(arrow) | WasdBit(wasd), PAUSE_BIT);
  }

  lemma OrTwice(w: bv16, b: bv16)
    ensures (w | b) | b == w | b
    ensures (w | 0) | b == w | b
  {
  }

  /** How one token changes the word. */
  function Updated(w: bv16, t: Token): bv16 {
    match t
    case Sequence(c) => if ArrowDir(c) == Def then w else (w & 65295) | ArrowBit(ArrowDir(c))
    case Key(c) => if LetterDir(c) == Def then w else (w & 61695) | WasdBit(LetterDir(c))
    case Escape => w | PAUSE_BIT
  }

  /** The word after a burst of tokens. */
  function Packed(ts: seq<Token>): bv16 {
    if ts == [] then 0 else Updated(Packed(ts[..|ts| - 1]), ts[|ts| - 1])
  }

  lemma PackedAppend(ts: seq<Token>, t: Token)
    ensures Packed(ts + [t]) == Updated(Packed(ts), t)
  {
    assert (ts + [t])[..|ts|] == ts;
  }

  lemma {:induction false} PackedIsMeaning(ts: seq<Token>)
    ensures Packed(ts) == Meaning(ts)
  {
    if ts != [] {
      PackedIsMeaning(ts[..|ts| - 1]);
      MeaningAppend(ts[..|ts| - 1], ts[|ts| - 1]);
      assert ts == ts[..|ts| - 1] + [ts[|ts| - 1]];
    }
  }

  /** The word of a longer burst is the updated word of the shorter one. */
  lemma MeaningAppend(ts: seq<Token>, t: Token)
    ensures Meaning(ts + [t]) == Updated(Meaning(ts), t)
  {
    var arrow, wasd, pause := LastDir(Arrows, ts), LastDir(Wasd, ts), Escape in ts;
    LastDirAppend(ts, t);
    UpdatedEncode(arrow, wasd, pause, t);
  }

  lemma LastDirAppend(ts: seq<Token>, t: Token)
    ensures forall k :: LastDir(k, ts + [t]) == if Says(k, t) != Def then Says(k, t) else LastDir(k, ts)
    ensures Escape in ts + [t] <==> Escape in ts || t == Escape
  {
    assert (ts + [t])[..|ts|] == ts;
  }

  lemma UpdatedEncode(arrow: Dir, wasd: Dir, pause: bool, t: Token)
    ensures Updated(Encode(arrow, wasd, pause), t) ==
            Encode(if Says(Arrows, t) != Def then Says(Arrows, t) else arrow,
                   if Says(Wasd, t) != Def then Says(Wasd, t) else wasd, pause || t == Escape)
  {
    match t
    case Sequence(c) => SetArrow(arrow, wasd, pause, ArrowDir(c));
    case Key(c) => SetWasd(arrow, wasd, pause, LetterDir(c));
    case Escape => SetPause(arrow, wasd, pause);
  }

  /** The word for typed tokens, read from their bytes: the last arrow, the last letter, and
      whether there was a lone escape. */
  lemma MeaningOfTyped(ts: seq<Token>)
    requires Proper(ts)
    ensures Meaning(Tokens(Bytes(ts))) == Encode(LastDir(Arrows, ts), LastDir(Wasd, ts), Escape in ts)
  {
    TokensOfBytes(ts);
  }

  /** The token that begins at byte i, and where the next one begins. */
  function TokenAt(s: string, i: nat): (Token, nat)
    requires i < |s|
  {
    if s[i] != ESC then (Key(s[i]), i + 1)
    else if i + 2 < |s| && s[i + 1] == '[' then (Sequence(s[i + 2]), i + 3)
    else (Escape, i + 1)
  }

  lemma TokensStep(s: string, i: nat)
    requires i < |s|
    ensures var (t, j) := TokenAt(s, i);
            j <= |s| && Tokens(s[i..]) == [t] + Tokens(s[j..])
  {
    assert s[i..][1..] == s[i + 1..];
    if i + 2 < |s| { assert s[i..][3..] == s[i + 3..]; }
  }

  /** The switch on the last byte of an escape sequence. */
  method SwitchArrow(w: bv16, last: char) returns (ctrl: bv16)
    ensures ctrl == Updated(w, Sequence(last))
  {
    ctrl := w;
    match last {
      case 'A' => ctrl := ctrl & 65295; ctrl := ctrl | ARROW_UP;
      case 'B' => ctrl := ctrl & 65295; ctrl := ctrl | ARROW_DOWN;
      case 'C' => ctrl := ctrl & 65295; ctrl := ctrl | ARROW_RIGHT;
      case 'D' => ctrl := ctrl & 65295; ctrl := ctrl | ARROW_LEFT;
      case _ =>
    }
  }

  /** The switch on any other byte. */
  method SwitchLetter(w: bv16, letter: char) returns (ctrl: bv16)
    ensures ctrl == Updated(w, Key(letter))
  {
    ctrl := w;
    match letter {
      case 'A' | 'a' => ctrl := ctrl & 61695; ctrl := ctrl | WASD_LEFT;
      case 'S' | 's' => ctrl := ctrl & 61695; ctrl := ctrl | WASD_DOWN;
      case 'D' | 'd' => ctrl := ctrl & 61695; ctrl := ctrl | WASD_RIGHT;
      case 'W' | 'w' => ctrl := ctrl & 61695; ctrl := ctrl | WASD_UP;
      case _ =>
    }
  }

  /** The word after scanning the bytes from i on. */
  function Scanned(s: string, i: nat, w: bv16): bv16
    decreases |s| - i
  {
    if i >= |s| then w
    else var (t, j) := TokenAt(s, i); Scanned(s, j, Updated(w, t))
  }

  lemma {:induction false} ScannedIsPacked(s: string, i: nat, seen: seq<Token>)
    requires i <= |s|
    ensures Scanned(s, i, Packed(seen)) == Packed(seen + Tokens(s[i..]))
    decreases |s| - i
  {
    if i < |s| {
      var (t, j) := TokenAt(s, i);
      TokensStep(s, i);
      PackedAppend(seen, t);
      ScannedIsPacked(s, j, seen + [t]);
      assert seen + Tokens(s[i..]) == seen + [t] + Tokens(s[j..]);
    } else {
      assert seen + Tokens(s[i..]) == seen;
    }
  }

  /** getCtrlNum on the bytes that one read returned. */
  method GetCtrlNum(buffer: string) returns (ctrl: bv16)
    ensures ctrl == Meaning(Tokens(buffer))
  {
    ctrl := 0;
    var i := 0;
    while i < |buffer|
      invariant 0 <= i <= |buffer|
      invariant Scanned(buffer, i, ctrl) == Scanned(buffer, 0, 0)
    {
      if buffer[i] == ESC {
        if i + 2 < |buffer| && buffer[i + 1] == '[' {
          ctrl := SwitchArrow(ctrl, buffer[i + 2]);
          i := i + 2;
        } else {
          ctrl := ctrl | PAUSE_BIT;
        }
      } else {
        ctrl := SwitchLetter(ctrl, buffer[i]);
      }
      i := i + 1;
    }
    ScannedIsPacked(buffer, 0, []);
    PackedIsMeaning(Tokens(buffer));
    assert buffer[0..] == buffer && [] + Tokens(buffer) == Tokens(buffer);
  }

  // ----- what a human controller does with the word -----

  /** The outcome of Human::fonKey on an alive snake: no move, or a move in a direction. */
  datatype Request = Pause | Go(d: Dir)

  function Requested(k: KeySet, ctrl: bv16): Request {
    if ctrl & PAUSE_BIT != 0 then Pause
    else if k == Wasd then
      if ctrl & WASD_UP != 0 then Go(Up)
      else if ctrl & WASD_DOWN != 0 then Go(Down)
      else if ctrl & WASD_LEFT != 0 then Go(Left)
      else if ctrl & WASD_RIGHT != 0 then Go(Right)
      else Go(Def)
    else
      if ctrl & ARROW_UP != 0 then Go(Up)
      else if ctrl & ARROW_DOWN != 0 then Go(Down)
      else if ctrl & ARROW_LEFT != 0 then Go(Left)
      else if ctrl & ARROW_RIGHT != 0 then Go(Right)
      else Go(Def)
  }

  /** The word carries at most one bit per player, and reading it gives back what was packed. */
  lemma RequestDecodes(arrow: Dir, wasd: Dir, pause: bool)
    ensures var w := Encode(arrow, wasd, pause);
            && w & 0xF0 in {0, ARROW_UP, ARROW_DOWN, ARROW_LEFT, ARROW_RIGHT}
            && w & 0xF00 in {0, WASD_UP, WASD_DOWN, WASD_LEFT, WASD_RIGHT}
            && Requested(Wasd, w) == (if pause then Pause else Go(wasd))
            && Requested(Arrows, w) == (if pause then Pause else Go(arrow))
  {
    match arrow {
      case Up => match wasd { case Up => case Down => case Left => case Right => case Def => }
      case Down => match wasd { case Up => case Down => case Left => case Right => case Def => }
      case Left => match wasd { case Up => case Down => case Left => case Right => case Def => }
      case Right => match wasd { case Up => case Down => case Left => case Right => case Def => }
      case Def => match wasd { case Up => case Down => case Left => case Right => case Def => }
    }
  }

  /** What a player types for a direction; letters may be capitals. */
  function Typed(k: KeySet, d: Dir, capital: bool): string
    requires d != Def
  {
    match k
    case Arrows => [ESC, '['] + (match d case Up => "A" case Down => "B" case Right => "C" case _ => "D")
    case Wasd =>
      if capital then match d case Up => "W" case Down => "S" case Right => "D" case _ => "A"
      else match d case Up => "w" case Down => "s" case Right => "d" case _ => "a"
  }

  /** It requests that direction of the player, and none of the other one. */
  lemma TypedIsRequested(k: KeySet, d: Dir, capital: bool, other: KeySet)
    requires d != Def && other != k
    ensures Requested(k, Meaning(Tokens(Typed(k, d, capital)))) == Go(d)
    ensures Requested(other, Meaning(Tokens(Typed(k, d, capital)))) == Go(Def)
  {
    var s := Typed(k, d, capital);
    var ts := match k case Arrows => [Sequence(s[2])] case Wasd => [Key(s[0])];
    assert ts[1..] == [] && Bytes(ts[1..]) == "" && ts[..0] == [];
    assert Bytes(ts) == s;
    MeaningOfTyped(ts);
    assert LastDir(k, ts) == d && LastDir(other, ts) == Def;
    RequestDecodes(LastDir(Arrows, ts), LastDir(Wasd, ts), false);
  }

  function BitOf(k: KeySet, d: Dir): bv16 {
    if k == Wasd then WasdBit(d) else ArrowBit(d)
  }

  /** The order in which the branches ask for directions. */
  function Rank(d: Dir): nat {
    match d
    case Up => 0
    case Down => 1
    case Left => 2
    case Right => 3
    case Def => 4
  }

  /** For every word, with any bits set: the first direction in that order whose bit is set. */
  lemma RequestedIsFirst(k: KeySet, ctrl: bv16)
    ensures Requested(k, ctrl) == Pause <==> ctrl & 0x8000 != 0
    ensures Requested(k, ctrl) != Pause ==>
              var d := Requested(k, ctrl).d;
              && (d != Def ==> ctrl & BitOf(k, d) != 0)
              && forall e :: Rank(e) < Rank(d) ==> ctrl & BitOf(k, e) == 0
  {
    if Requested(k, ctrl) != Pause {
      var d := Requested(k, ctrl).d;
      forall e | Rank(e) < Rank(d) ensures ctrl & BitOf(k, e) == 0 {
        match e case Up => case Down => case Left => case Right => case Def =>
      }
    }
  }

  /** For every byte stream a human requests the last direction of its own keys, Def if it
      pressed none, unless some escape byte begins no complete sequence: then the game pauses. */
  lemma HumanRequests(k: KeySet, s: string)
    ensures Requested(k, Meaning(Tokens(s))) ==
            if Escape in Tokens(s) then Pause else Go(LastDir(k, Tokens(s)))
  {
    var ts := Tokens(s);
    RequestDecodes(LastDir(Arrows, ts), LastDir(Wasd, ts), Escape in ts);
  }

  /** The other player's keys make no difference. */
  lemma PlayersIndependent(k: KeySet, s: string, s': string)
    requires Escape !in Tokens(s) && Escape !in Tokens(s')
    requires Own(k, Tokens(s)) == Own(k, Tokens(s'))
    ensures Requested(k, Meaning(Tokens(s))) == Requested(k, Meaning(Tokens(s')))
  {
    HumanRequests(k, s);
    HumanRequests(k, s');
    LastDirOfOwn(k, Tokens(s));
    LastDirOfOwn(k, Tokens(s'));
  }
}
