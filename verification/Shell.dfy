/** The in-place command splitter of myshell/main.cpp. A C string is an array of bytes with a
    NUL in it; a pointer into it is an offset. */
module Shell {

  const NUL: char := '\0'
  const CONVEYER: char := '|'
  const CMD_MAX_LEN := 1024
  const WORDS_ARR_SIZE := 512

  datatype Pointer = Null | To(offset: nat)

  datatype Condition = Space | NotSpace

  /** isspace in the C locale. */
  predicate IsSpace(b: char) {
    b in {' ', '\t', '\n', '\r', '\U{0B}', '\U{0C}'}
  }

  /** By code point: the space, and 9 to 13. */
  lemma SpaceIs(b: char)
    ensures IsSpace(b) <==> b as int == 32 || 9 <= b as int <= 13
  {
  }

  /** The C string that starts at an offset of a buffer. */
  function CString(buffer: seq<char>, at: nat): string
    requires at < |buffer| && NUL in buffer[at..]
    decreases |buffer| - at
  {
    if buffer[at] == NUL then ""
    else
      assert buffer[at..][1..] == buffer[at + 1..];
      [buffer[at]] + CString(buffer, at + 1)
  }

  // ----- what the words of a command are -----

  /** A word starts at a non-space byte that has no non-space byte before it. */
  predicate StartsWord(s: string, i: nat)
    requires i < |s|
  {
    !IsSpace(s[i]) && (i == 0 || IsSpace(s[i - 1]))
  }

  /** The offsets at which words start, among the first n bytes. */
  function Starts(s: string, n: nat): (r: seq<nat>)
    requires n <= |s|
    ensures forall k :: 0 <= k < |r| ==> r[k] < n && StartsWord(s, r[k])
  {
    if n == 0 then [] else Starts(s, n - 1) + (if StartsWord(s, n - 1) then [n - 1] else [])
  }

  /** Where the word that starts at i ends. */
  function WordEnd(s: string, i: nat): (e: nat)
    requires i <= |s|
    ensures i <= e <= |s|
    ensures forall j :: i <= j < e ==> !IsSpace(s[j])
    ensures e < |s| ==> IsSpace(s[e])
    decreases |s| - i
  {
    if i == |s| || IsSpace(s[i]) then i else WordEnd(s, i + 1)
  }

  /** The runs of non-space bytes that start at the given offsets. */
  function Cut(s: string, starts: seq<nat>): (r: seq<string>)
    requires forall k :: 0 <= k < |starts| ==> starts[k] <= |s|
    ensures |r| == |starts|
  {
    if starts == [] then []
    else [s[starts[0]..WordEnd(s, starts[0])]] + Cut(s, starts[1..])
  }

  lemma {:induction false} CutAt(s: string, starts: seq<nat>, k: nat)
    requires k < |starts| && forall j :: 0 <= j < |starts| ==> starts[j] <= |s|
    ensures Cut(s, starts)[k] == s[starts[k]..WordEnd(s, starts[k])]
  {
    if k > 0 {
      CutAt(s, starts[1..], k - 1);
    }
  }

  /** The maximal runs of non-space bytes, in order. */
  function Words(s: string): seq<string> {
    Cut(s, Starts(s, |s|))
  }

  /** The command after the rewriting: every space is a NUL, every other byte is itself. */
  function Blanked(s: string): (r: string)
    ensures |r| == |s|
  {
    seq(|s|, i requires 0 <= i < |s| => if IsSpace(s[i]) then NUL else s[i])
  }

  /** Word starts are exactly the positions where a word starts, in increasing order. */
  lemma {:induction false} StartsAreAll(s: string, n: nat)
    requires n <= |s|
    ensures forall j, k :: 0 <= j < k < |Starts(s, n)| ==> Starts(s, n)[j] < Starts(s, n)[k]
    ensures forall i :: 0 <= i < n && StartsWord(s, i) ==> i in Starts(s, n)
  {
    if n > 0 {
      StartsAreAll(s, n - 1);
    }
  }

  /** A different way to read off the words from offset i on: skip spaces, take a run to its
      end, go on behind it. */
  function Scan(s: string, i: nat): seq<string>
    requires i <= |s|
    decreases |s| - i
  {
    if i == |s| then []
    else if IsSpace(s[i]) then Scan(s, i + 1)
    else
      var e := WordEnd(s, i);
      [s[i..e]] + Scan(s, e)
  }

  /** The word starts at or behind i. */
  function StartsFrom(s: string, i: nat): (r: seq<nat>)
    requires i <= |s|
    ensures forall k :: 0 <= k < |r| ==> r[k] < |s|
    decreases |s| - i
  {
    if i == |s| then [] else (if StartsWord(s, i) then [i] else []) + StartsFrom(s, i + 1)
  }

  lemma {:induction false} StartsSplit(s: string, i: nat)
    requires i <= |s|
    ensures Starts(s, |s|) == Starts(s, i) + StartsFrom(s, i)
    decreases |s| - i
  {
    if i < |s| {
      StartsSplit(s, i + 1);
    }
  }

  /** No word starts inside a run. */
  lemma {:induction false} NoStartInside(s: string, i: nat, e: nat)
    requires 0 < i <= e <= |s| && !IsSpace(s[i - 1]) && e == WordEnd(s, i)
    ensures StartsFrom(s, i) == StartsFrom(s, e)
    decreases e - i
  {
    if i < e {
      NoStartInside(s, i + 1, e);
      assert StartsFrom(s, i) == StartsFrom(s, i + 1);
    }
  }

  lemma CutCons(s: string, i: nat, rest: seq<nat>)
    requires i <= |s| && forall k :: 0 <= k < |rest| ==> rest[k] <= |s|
    ensures Cut(s, [i] + rest) == [s[i..WordEnd(s, i)]] + Cut(s, rest)
  {
    assert ([i] + rest)[1..] == rest;
  }

  /** The starts from a word's first byte on: this one, and those behind its end. */
  lemma StartsAtWord(s: string, i: nat)
    requires i < |s| && StartsWord(s, i)
    ensures StartsFrom(s, i) == [i] + StartsFrom(s, WordEnd(s, i))
  {
    NoStartInside(s, i + 1, WordEnd(s, i));
  }

  lemma ScanSpace(s: string, i: nat)
    requires i < |s| && IsSpace(s[i])
    ensures Scan(s, i) == Scan(s, i + 1) && StartsFrom(s, i) == StartsFrom(s, i + 1)
  {
  }

  lemma ScanWord(s: string, i: nat)
    requires i < |s| && StartsWord(s, i)
    requires Scan(s, WordEnd(s, i)) == Cut(s, StartsFrom(s, WordEnd(s, i)))
    ensures Scan(s, i) == Cut(s, StartsFrom(s, i))
  {
    StartsAtWord(s, i);
    CutCons(s, i, StartsFrom(s, WordEnd(s, i)));
  }

  lemma {:induction false} ScanIsCut(s: string, i: nat)
    requires i <= |s| && (i == 0 || IsSpace(s[i - 1]) || i == |s| || IsSpace(s[i]))
    ensures Scan(s, i) == Cut(s, StartsFrom(s, i))
    decreases |s| - i
  {
    if i < |s| {
      if IsSpace(s[i]) {
        ScanSpace(s, i);
        ScanIsCut(s, i + 1);
      } else {
        ScanIsCut(s, WordEnd(s, i));
        ScanWord(s, i);
      }
    }
  }

  /** Both readings give the same words. */
  lemma WordsAreScan(s: string)
    ensures Words(s) == Scan(s, 0)
  {
    assert Starts(s, 0) == [];
    StartsSplit(s, 0);
    ScanIsCut(s, 0);
    assert Starts(s, |s|) == StartsFrom(s, 0);
  }

  /** How far the words' entries are shifted: a leading space leaves entry 0 without a word. */
  function Shift(s: string): nat {
    if s != "" && IsSpace(s[0]) then 1 else 0
  }

  /** Two words have a space between them, so words are at most half of the bytes. */
  lemma {:induction false} StartsBound(s: string, n: nat)
    requires n <= |s|
    ensures var open := if n > 0 && !IsSpace(s[n - 1]) then 1 else 0;
            2 * |Starts(s, n)| + (if n > 0 then Shift(s) else 0) <= n + open
  {
    if n > 0 {
      StartsBound(s, n - 1);
    }
  }

  /** The largest table index that a command of |s| bytes needs is |s| / 2: with the buffer
      and table sizes of the shell the table is large enough. */
  lemma TableSuffices(s: string)
    ensures |Words(s)| + Shift(s) <= |s| / 2 + 1
    ensures |s| < CMD_MAX_LEN ==> |Words(s)| + Shift(s) <= WORDS_ARR_SIZE
  {
    StartsBound(s, |s|);
  }

  lemma {:induction false} CStringIs(buffer: seq<char>, at: nat, e: nat)
    requires at <= e < |buffer| && buffer[e] == NUL
    requires forall j :: at <= j < e ==> buffer[j] != NUL
    ensures NUL in buffer[at..] && CString(buffer, at) == buffer[at..e]
    decreases e - at
  {
    assert buffer[at..][e - at] == NUL;
    if at < e {
      CStringIs(buffer, at + 1, e);
    }
  }

  /** In the rewritten buffer every word start begins a C string that is exactly its word. */
  lemma WordsAreCStrings(s: string, buffer: seq<char>, k: nat)
    requires Rewritten(s, buffer)
    requires k < |Words(s)|
    ensures var start := Starts(s, |s|)[k];
            NUL in buffer[start..] && CString(buffer, start) == Words(s)[k]
  {
    var starts := Starts(s, |s|);
    CutAt(s, starts, k);
    WordIsCString(s, buffer, starts[k], WordEnd(s, starts[k]));
  }

  /** Byte j of the rewritten buffer. */
  lemma RewrittenAt(s: string, buffer: seq<char>, j: nat)
    requires Rewritten(s, buffer) && j <= |s|
    ensures buffer[j] == if j == |s| || IsSpace(s[j]) then NUL else s[j]
    ensures buffer[j] == NUL <==> j == |s| || IsSpace(s[j])
  {
    if j < |s| {
      assert buffer[j] == buffer[..|s|][j];
      NoNul(s);
    }
  }

  lemma WordIsCString(s: string, buffer: seq<char>, start: nat, e: nat)
    requires Rewritten(s, buffer) && start < |s| && e == WordEnd(s, start)
    ensures NUL in buffer[start..] && CString(buffer, start) == s[start..e]
  {
    forall j | start <= j < e ensures buffer[j] == s[j] != NUL { RewrittenAt(s, buffer, j); }
    RewrittenAt(s, buffer, e);
    CStringIs(buffer, start, e);
    assert buffer[start..e] == s[start..e];
  }

  /** What table entry t holds for the word that starts at `start`. */
  function Entry(s: string, t: nat, start: nat): Pointer
    requires start < |s|
  {
    if t > 0 && s[start] == CONVEYER then Null else To(start)
  }

  /** The table after n bytes: entry 0 points at the buffer, the others at the words seen. */
  ghost predicate Tabled(s: string, table: seq<Pointer>, last: nat, n: nat)
    requires n <= |s|
  {
    var starts := Starts(s, n);
    && last < |table| && table[0] == To(0)
    && last == (if n == 0 then 0 else |starts| + Shift(s) - 1)
    && (forall k :: 0 <= k < |starts| ==> table[k + Shift(s)] == Entry(s, k + Shift(s), starts[k]))
  }

  /** One more byte: a word that starts there, not at the front, takes the next entry, which
      is within the first |s| / 2 + 1. */
  lemma TabledStep(s: string, table: seq<Pointer>, last: nat, n: nat)
    requires n < |s| && |s| / 2 < |table| && Tabled(s, table, last, n)
    ensures n > 0 && StartsWord(s, n) ==>
              last + 1 <= |s| / 2 && Tabled(s, table[last + 1 := Entry(s, last + 1, n)], last + 1, n + 1)
    ensures n == 0 || !StartsWord(s, n) ==> Tabled(s, table, last, n + 1)
  {
    StartsBound(s, n + 1);
    if n == 0 {
      assert Starts(s, 0) == [];
    }
  }

  /** The index of the newest entry after n bytes. */
  function LastAt(s: string, n: nat): nat
    requires n <= |s|
  {
    if n == 0 then 0 else LastAt(s, n - 1) + (if n > 1 && StartsWord(s, n - 1) then 1 else 0)
  }

  lemma {:induction false} LastBound(s: string, n: nat)
    requires n <= |s|
    ensures LastAt(s, n) <= |s| / 2
    ensures n > 0 ==> LastAt(s, n) == |Starts(s, n)| + Shift(s) - 1
  {
    if n > 0 {
      LastBound(s, n - 1);
      StartsBound(s, n);
      if n == 1 { assert Starts(s, 0) == []; }
    }
  }

  /** The table after n bytes, from the table t at the call. */
  function TableAt(s: string, t: seq<Pointer>, n: nat): (r: seq<Pointer>)
    requires n <= |s| && |s| / 2 < |t|
    ensures |r| == |t|
    ensures forall k :: |s| / 2 < k < |t| ==> r[k] == t[k]
  {
    if n == 0 then t[0 := To(0)]
    else
      var r := TableAt(s, t, n - 1);
      LastBound(s, n);
      if n > 1 && StartsWord(s, n - 1) then r[LastAt(s, n) := Entry(s, LastAt(s, n), n - 1)] else r
  }

  lemma {:induction false} TableAtTabled(s: string, t: seq<Pointer>, n: nat)
    requires n <= |s| && |s| / 2 < |t|
    ensures Tabled(s, TableAt(s, t, n), LastAt(s, n), n)
  {
    if n > 0 {
      TableAtTabled(s, t, n - 1);
      TabledStep(s, TableAt(s, t, n - 1), LastAt(s, n - 1), n - 1);
    }
  }

  /** Entries behind the newest one are as they were at the call. */
  lemma {:induction false} TableKeeps(s: string, t: seq<Pointer>, n: nat, k: nat)
    requires n <= |s| && |s| / 2 < |t| && LastAt(s, n) < k < |t|
    ensures TableAt(s, t, n)[k] == t[k]
  {
    if n > 0 {
      TableKeeps(s, t, n - 1, k);
      LastBound(s, n);
    }
  }

  /** The finished table: entry 0 is the front of the buffer and, after the shift, word k has
      its entry. */
  ghost predicate TableOf(s: string, table: seq<Pointer>) {
    && |Words(s)| + Shift(s) <= |table| && 0 < |table| && table[0] == To(0)
    && forall k :: 0 <= k < |Words(s)| ==>
         table[k + Shift(s)] == Entry(s, k + Shift(s), Starts(s, |s|)[k])
  }

  lemma TableComplete(s: string, t: seq<Pointer>)
    requires |s| / 2 < |t|
    ensures TableOf(s, TableAt(s, t, |s|))
    ensures |Words(s)| == LastAt(s, |s|) + (if s == "" || IsSpace(s[0]) then 0 else 1)
  {
    TableSuffices(s);
    TableAtTabled(s, t, |s|);
    LastBound(s, |s|);
    if s == "" { assert Starts(s, 0) == []; }
  }

  /** The buffer after n bytes, from the buffer b at the call. */
  function BufferAt(b: seq<char>, n: nat): (r: seq<char>)
    requires n <= |b|
    ensures |r| == |b| && forall j :: n <= j < |b| ==> r[j] == b[j]
  {
    if n == 0 then b
    else if IsSpace(b[n - 1]) then BufferAt(b, n - 1)[n - 1 := NUL] else BufferAt(b, n - 1)
  }

  lemma {:induction false} BufferIsBlanked(b: seq<char>, n: nat)
    requires n <= |b|
    ensures BufferAt(b, n) == Blanked(b[..n]) + b[n..]
  {
    if n == 0 {
      assert Blanked(b[..0]) == "";
    } else {
      BufferIsBlanked(b, n - 1);
      assert b[..n] == b[..n - 1] + [b[n - 1]];
    }
  }

  lemma NoNul(s: string)
    requires NUL !in s
    ensures forall j :: 0 <= j < |s| ==> s[j] != NUL
  {
  }

  ghost predicate Rewritten(s: string, buffer: seq<char>) {
    |s| < |buffer| && buffer[..|s|] == Blanked(s) && buffer[|s|] == NUL && NUL !in s
  }

  /** Table entry t stands for a word: null behind the front if the word starts with a bar, else
      the offset of a C string that is the word. */
  ghost predicate StandsFor(table: seq<Pointer>, buffer: seq<char>, t: nat, word: string) {
    && t < |table| && word != ""
    && (table[t] == Null <==> t > 0 && word[0] == '|')
    && (table[t] != Null ==>
          var o := table[t].offset;
          o < |buffer| && NUL in buffer[o..] && CString(buffer, o) == word)
  }

  lemma EntryStandsFor(s: string, table: seq<Pointer>, buffer: seq<char>, k: nat)
    requires Rewritten(s, buffer) && TableOf(s, table) && k < |Words(s)|
    ensures StandsFor(table, buffer, k + Shift(s), Words(s)[k])
  {
    var starts := Starts(s, |s|);
    CutAt(s, starts, k);
    WordsAreCStrings(s, buffer, k);
    assert StartsWord(s, starts[k]);
  }

  lemma AllStandFor(s: string, table: seq<Pointer>, buffer: seq<char>)
    requires Rewritten(s, buffer) && TableOf(s, table)
    ensures forall k :: 0 <= k < |Words(s)| ==> StandsFor(table, buffer, k + Shift(s), Words(s)[k])
  {
    forall k | 0 <= k < |Words(s)| ensures StandsFor(table, buffer, k + Shift(s), Words(s)[k]) {
      EntryStandsFor(s, table, buffer, k);
    }
  }

  /** rebuild_cmd: `cmd` holds the command s, a NUL and whatever follows it. Spaces become NULs
      in place, `word` gets a pointer per word, and the number of words is returned. */
  method RebuildCmd(cmd: array<char>, word: array<Pointer>, ghost s: string) returns (count: int)
    requires |s| < cmd.Length && cmd[..|s|] == s && cmd[|s|] == NUL && NUL !in s
    requires |s| / 2 < word.Length
    modifies cmd, word
    ensures count == |Words(s)|
    ensures cmd[..] == Blanked(s) + old(cmd[|s|..])
    ensures Rewritten(s, cmd[..]) && TableOf(s, word[..])
    ensures forall k :: 0 <= k < |Words(s)| ==> StandsFor(word[..], cmd[..], k + Shift(s), Words(s)[k])
    ensures forall t :: 0 < t < word.Length && t >= |Words(s)| + Shift(s) ==> word[t] == old(word[t])
  {
    ghost var b, t := cmd[..], word[..];
    assert b[..|s|] == s;
    assert forall j :: 0 <= j < |s| ==> b[j] != NUL by { NoNul(s); }
    var cond, last: int := NotSpace, 0;
    word[0] := To(0);
    var i := 0;
    while cmd[i] != NUL
      invariant 0 <= i <= |s|
      invariant cond == Space <==> i > 0 && IsSpace(b[i - 1])
      invariant cmd[..] == BufferAt(b, i)
      invariant word[..] == TableAt(s, t, i) && last == LastAt(s, i)
      decreases |s| - i
    {
      assert cmd[i] == b[i];
      LastBound(s, i + 1);
      if cond == Space {
        if IsSpace(cmd[i]) {
          cmd[i] := NUL;
          i := i + 1;
          continue;
        }
        cond := NotSpace;
        last := last + 1;
        if cmd[i] == CONVEYER {
          word[last] := Null;
          i := i + 1;
          continue;
        }
        word[last] := To(i);
      } else {
        if IsSpace(cmd[i]) {
          cmd[i] := NUL;
          cond := Space;
        }
      }
      i := i + 1;
    }
    assert i == |s|;
    BufferIsBlanked(b, |s|);
    TableComplete(s, t);
    forall k | 0 < k < |t| && k >= |Words(s)| + Shift(s) ensures word[k] == t[k] {
      TableKeeps(s, t, |s|, k);
    }
    AllStandFor(s, word[..], cmd[..]);
    if cmd[0] == NUL {
      last := last - 1;
    }
    return last + 1;
  }
}
