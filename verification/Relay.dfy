/** The relay race of msq/main.cpp: one judge and n runners that share a typed message queue.
    Every process is a program counter; a step is one blocking call or one printed event, and
    any process whose call can proceed may take the next step. */
module Relay {

  /** The judge's position in its two loops; `got` and `sent` are the loop counters. */
  datatype JudgePc = Collecting(got: nat) | Releasing(sent: nat) | AwaitingLast | JudgeDone

  /** A runner's position; the names say what the runner does next or waits for. */
  datatype RunnerPc = Arriving | AwaitingGo | AwaitingBaton | Ready | Running | Handing | RunnerDone

  /** What is observable: a runner came, the judge confirmed everybody, a runner started and
      finished, the judge took the last token. */
  datatype Event = Came(i: nat) | Confirmed | Started(i: nat) | Ended(i: nat) | LastTaken

  datatype State = State(queue: seq<int>, judge: JudgePc, runners: seq<RunnerPc>, log: seq<Event>)

  // ----- the queue -----

  /** Whether a receive of type t can proceed; type 0 takes any message. */
  predicate CanReceive(q: seq<int>, t: int) {
    if t == 0 then q != [] else t in q
  }

  /** Index of the first message of type t. */
  function FirstOf(q: seq<int>, t: int): (k: nat)
    requires t in q
    ensures k < |q| && q[k] == t
    ensures t !in q[..k]
  {
    if q[0] == t then 0
    else
      var k := FirstOf(q[1..], t);
      assert q[..k + 1] == [q[0]] + q[1..][..k];
      k + 1
  }

  /** The queue after a receive: the oldest message of the wanted type is gone. */
  function Received(q: seq<int>, t: int): seq<int>
    requires CanReceive(q, t)
  {
    if t == 0 then q[1..] else var k := FirstOf(q, t); q[..k] + q[k + 1..]
  }

  // ----- one step of a process; process 0 is the judge -----

  function BatonFor(n: nat, i: nat): int {
    if i == 1 then n + 10 else i - 1
  }

  predicate JudgeEnabled(s: State) {
    var n := |s.runners|;
    match s.judge
    case Collecting(got) => got < n ==> CanReceive(s.queue, 0)
    case Releasing(_) => true
    case AwaitingLast => CanReceive(s.queue, n)
    case JudgeDone => false
  }

  predicate RunnerEnabled(s: State, i: nat)
    requires 1 <= i <= |s.runners|
  {
    var n := |s.runners|;
    match s.runners[i - 1]
    case AwaitingGo => CanReceive(s.queue, n + 1)
    case AwaitingBaton => CanReceive(s.queue, BatonFor(n, i))
    case RunnerDone => false
    case _ => true
  }

  predicate Enabled(s: State, p: nat) {
    if p == 0 then JudgeEnabled(s) else p <= |s.runners| && RunnerEnabled(s, p)
  }

  function JudgeNext(s: State): State
    requires JudgeEnabled(s)
  {
    var n := |s.runners|;
    match s.judge
    case Collecting(got) =>
      if got < n then s.(queue := Received(s.queue, 0), judge := Collecting(got + 1))
      else s.(judge := Releasing(0), log := s.log + [Confirmed])
    case Releasing(sent) =>
      if sent < n then s.(queue := s.queue + [n + 1], judge := Releasing(sent + 1))
      else s.(queue := s.queue + [n + 10], judge := AwaitingLast)
    case AwaitingLast =>
      s.(queue := Received(s.queue, n), judge := JudgeDone, log := s.log + [LastTaken])
  }

  function At(s: State, i: nat, pc: RunnerPc): State
    requires 1 <= i <= |s.runners|
  {
    s.(runners := s.runners[i - 1 := pc])
  }

  function RunnerNext(s: State, i: nat): State
    requires 1 <= i <= |s.runners| && RunnerEnabled(s, i)
  {
    var n := |s.runners|;
    match s.runners[i - 1]
    case Arriving => At(s, i, AwaitingGo).(queue := s.queue + [i], log := s.log + [Came(i)])
    case AwaitingGo => At(s, i, AwaitingBaton).(queue := Received(s.queue, n + 1))
    case AwaitingBaton => At(s, i, Ready).(queue := Received(s.queue, BatonFor(n, i)))
    case Ready => At(s, i, Running).(log := s.log + [Started(i)])
    case Running => At(s, i, Handing).(log := s.log + [Ended(i)])
    case Handing => At(s, i, RunnerDone).(queue := s.queue + [i])
  }

  function Next(s: State, p: nat): State
    requires Enabled(s, p)
  {
    if p == 0 then JudgeNext(s) else RunnerNext(s, p)
  }

  // ----- runs -----

  function Init(n: nat): State {
    State([], Collecting(0), seq(n, _ => Arriving), [])
  }

  /** A schedule names the process that takes each step. */
  predicate Legal(s: State, schedule: seq<nat>)
    decreases |schedule|
  {
    schedule == [] || (Enabled(s, schedule[0]) && Legal(Next(s, schedule[0]), schedule[1..]))
  }

  function After(s: State, schedule: seq<nat>): State
    requires Legal(s, schedule)
    decreases |schedule|
  {
    if schedule == [] then s else After(Next(s, schedule[0]), schedule[1..])
  }

  ghost predicate Stuck(s: State) {
    forall p: nat :: !Enabled(s, p)
  }

  // ----- the invariant -----

  /** Where the baton is while the race is on: in the queue, or with runner `leg`. */
  datatype Stage = Queued | Taken | Run | Done

  datatype Phase = Gathering | Letting | Racing(leg: nat, stage: Stage) | Over

  ghost predicate AllIn(r: seq<RunnerPc>, a: RunnerPc, b: RunnerPc) {
    forall j :: 0 <= j < |r| ==> r[j] == a || r[j] == b
  }

  /** The log of the gathering: one Came per runner that has come, and nothing else. */
  ghost predicate Gathered(log: seq<Event>, r: seq<RunnerPc>) {
    && |log| == Count(r, AwaitingGo)
    && (forall k :: 0 <= k < |log| ==> log[k].Came? && 1 <= log[k].i <= |r|)
    && (forall j :: 0 <= j < |r| ==> (r[j] == AwaitingGo <==> Came(j + 1) in log))
  }

  /** Everybody came, each once. */
  ghost predicate Roster(log: seq<Event>, n: nat) {
    && |log| == n
    && (forall k :: 0 <= k < n ==> log[k].Came?)
    && (forall i :: 1 <= i <= n ==> Came(i) in log)
  }

  /** The first `legs` legs of the race, in order. */
  function Legs(legs: nat): seq<Event> {
    if legs == 0 then [] else Legs(legs - 1) + [Started(legs), Ended(legs)]
  }

  function RaceLog(leg: nat, stage: Stage): seq<Event>
  {
    if leg == 0 then []
    else match stage
      case Taken => Legs(leg - 1)
      case Run => Legs(leg - 1) + [Started(leg)]
      case _ => Legs(leg)
  }

  function BatonType(n: nat, leg: nat): int {
    if leg == 0 then n + 10 else leg
  }

  function Batons(stage: Stage): nat {
    if stage == Queued then 1 else 0
  }

  function Holding(stage: Stage): RunnerPc {
    match stage
    case Queued => RunnerDone
    case Taken => Ready
    case Run => Running
    case Done => Handing
  }

  /** Runners before the leg are through, the one on the leg is where the stage says, the
      later ones have not got the baton. */
  ghost predicate Lined(r: seq<RunnerPc>, leg: nat, stage: Stage) {
    forall j :: 0 <= j < |r| ==>
      if j + 1 < leg then r[j] == RunnerDone
      else if j + 1 == leg then r[j] == Holding(stage)
      else r[j] == AwaitingGo || r[j] == AwaitingBaton
  }

  /** The queue consists of `gos` go messages and `batons` messages of the baton's type. */
  ghost predicate Holds(q: seq<int>, go: int, gos: nat, baton: int, batons: nat) {
    && (forall k :: 0 <= k < |q| ==> q[k] == go || q[k] == baton)
    && Count(q, go) == gos
    && Count(q, baton) == batons
  }

  /** The runners of a log, in order. */
  function Numbers(log: seq<Event>): (r: seq<int>)
    ensures |r| == |log|
  {
    seq(|log|, k requires 0 <= k < |log| => if log[k].Confirmed? || log[k].LastTaken? then 0 else log[k].i)
  }

  lemma NumbersAdd(log: seq<Event>, i: nat, got: nat)
    requires got <= |log|
    ensures Numbers(log + [Came(i)])[got..] == Numbers(log)[got..] + [i]
  {
  }

  /** Queued are, in order, the arrivals that the judge has not yet taken; each runner that came is
      logged. */
  ghost predicate GatheringInv(s: State) {
    var n := |s.runners|;
    && n >= 1 && s.judge.Collecting? && s.judge.got <= n
    && AllIn(s.runners, Arriving, AwaitingGo)
    && (forall t :: t in s.queue ==> 1 <= t <= n)
    && s.judge.got <= |s.log| && s.queue == Numbers(s.log)[s.judge.got..]
    && Gathered(s.log, s.runners)
  }

  /** Go messages only are queued, those sent and not yet taken. */
  ghost predicate LettingInv(s: State, roster: seq<Event>) {
    var n := |s.runners|;
    && n >= 1 && s.judge.Releasing? && s.judge.sent <= n
    && AllIn(s.runners, AwaitingGo, AwaitingBaton)
    && Count(s.runners, AwaitingBaton) <= s.judge.sent
    && Holds(s.queue, n + 1, s.judge.sent - Count(s.runners, AwaitingBaton), n + 10, 0)
    && Roster(roster, n) && s.log == roster + [Confirmed]
  }

  /** The baton is where leg and stage say, and no other one is queued. */
  ghost predicate RacingInv(s: State, leg: nat, stage: Stage, roster: seq<Event>) {
    var n := |s.runners|;
    && n >= 1 && s.judge == AwaitingLast && leg <= n && (leg == 0 ==> stage == Queued)
    && Lined(s.runners, leg, stage)
    && Holds(s.queue, n + 1, Count(s.runners, AwaitingGo), BatonType(n, leg), Batons(stage))
    && Roster(roster, n) && s.log == roster + [Confirmed] + RaceLog(leg, stage)
  }

  ghost predicate OverInv(s: State, roster: seq<Event>) {
    var n := |s.runners|;
    && n >= 1 && s.judge == JudgeDone && s.queue == []
    && AllIn(s.runners, RunnerDone, RunnerDone)
    && Roster(roster, n) && s.log == roster + [Confirmed] + Legs(n) + [LastTaken]
  }

  ghost predicate Inv(s: State, phase: Phase, roster: seq<Event>) {
    match phase
    case Gathering => GatheringInv(s)
    case Letting => LettingInv(s, roster)
    case Racing(leg, stage) => RacingInv(s, leg, stage, roster)
    case Over => OverInv(s, roster)
  }

  // ----- counting -----

  ghost function Count<T>(s: seq<T>, x: T): nat {
    if s == [] then 0 else (if s[0] == x then 1 else 0) + Count(s[1..], x)
  }

  lemma {:induction false} CountConcat<T>(a: seq<T>, b: seq<T>, x: T)
    ensures Count(a + b, x) == Count(a, x) + Count(b, x)
  {
    if a == [] {
      assert a + b == b;
    } else {
      CountConcat(a[1..], b, x);
      assert (a + b)[1..] == a[1..] + b;
    }
  }

  lemma CountSet<T>(s: seq<T>, i: nat, v: T, x: T)
    requires i < |s|
    ensures Count(s[i := v], x) + (if s[i] == x then 1 else 0) == Count(s, x) + (if v == x then 1 else 0)
  {
    CountConcat(s[..i], [s[i]] + s[i + 1..], x);
    CountConcat(s[..i], [v] + s[i + 1..], x);
    assert s == s[..i] + ([s[i]] + s[i + 1..]);
    assert s[i := v] == s[..i] + ([v] + s[i + 1..]);
  }

  lemma {:induction false} CountBound<T>(s: seq<T>, x: T)
    ensures Count(s, x) <= |s|
    ensures Count(s, x) == 0 <==> x !in s
    ensures Count(s, x) == |s| <==> forall k :: 0 <= k < |s| ==> s[k] == x
  {
    if s != [] {
      CountBound(s[1..], x);
      assert s == [s[0]] + s[1..];
    }
  }

  /** A sequence that holds only two values has as many elements as it has of either. */
  lemma {:induction false} CountTwo<T>(q: seq<T>, a: T, b: T)
    requires a != b && forall k :: 0 <= k < |q| ==> q[k] == a || q[k] == b
    ensures |q| == Count(q, a) + Count(q, b)
  {
    if q != [] {
      CountTwo(q[1..], a, b);
    }
  }

  /** A receive takes exactly one message, the first of the wanted type, and keeps the others in
      order. */
  lemma ReceiveTakesOne(q: seq<int>, t: int, u: int)
    requires CanReceive(q, t)
    ensures forall v :: v in Received(q, t) ==> v in q
    ensures var taken := if t == 0 then q[0] else t;
            exists k :: 0 <= k < |q| && q[k] == taken && taken !in q[..k] && Received(q, t) == q[..k] + q[k + 1..]
    ensures var taken := if t == 0 then q[0] else t;
            |Received(q, t)| == |q| - 1 && Count(q, u) == Count(Received(q, t), u) + (if u == taken then 1 else 0)
  {
    var k := if t == 0 then 0 else FirstOf(q, t);
    CountConcat(q[..k], [q[k]] + q[k + 1..], u);
    CountConcat(q[..k], q[k + 1..], u);
    assert q == q[..k] + ([q[k]] + q[k + 1..]);
    assert Received(q, t) == q[..k] + q[k + 1..];
  }

  lemma HoldsNoBaton(q: seq<int>, go: int, gos: nat, baton: int, other: int)
    requires Holds(q, go, gos, baton, 0) && go != baton && go != other
    ensures Holds(q, go, gos, other, 0)
  {
    CountBound(q, baton);
    CountBound(q, other);
  }

  lemma HoldsReceived(q: seq<int>, go: int, gos: nat, baton: int, batons: nat, t: int)
    requires Holds(q, go, gos, baton, batons) && go != baton && t != 0 && t in q
    ensures t == go ==> gos > 0 && Holds(Received(q, t), go, gos - 1, baton, batons)
    ensures t == baton ==> batons > 0 && Holds(Received(q, t), go, gos, baton, batons - 1)
    ensures t == go || t == baton
  {
    ReceiveTakesOne(q, t, go);
    ReceiveTakesOne(q, t, baton);
    assert forall k :: 0 <= k < |Received(q, t)| ==> Received(q, t)[k] in Received(q, t);
  }

  lemma HoldsSent(q: seq<int>, go: int, gos: nat, baton: int, batons: nat, t: int)
    requires Holds(q, go, gos, baton, batons) && go != baton
    ensures t == go ==> Holds(q + [t], go, gos + 1, baton, batons)
    ensures t == baton ==> Holds(q + [t], go, gos, baton, batons + 1)
  {
    CountConcat(q, [t], go);
    CountConcat(q, [t], baton);
  }

  // ----- the invariant is kept -----

  lemma InitInv(n: nat)
    requires n >= 1
    ensures GatheringInv(Init(n)) && Good(Init(n))
  {
    CountBound(Init(n).runners, AwaitingGo);
    assert Inv(Init(n), Gathering, []);
  }

  /** While gathering every step is an arrival, a type-0 receive or the confirmation. */
  lemma GatheringStep(s: State, p: nat) returns (confirmed: bool)
    requires GatheringInv(s) && Enabled(s, p)
    ensures confirmed <==> p == 0 && s.judge.got == |s.runners|
    ensures confirmed ==> s.queue == []
    ensures if confirmed then LettingInv(Next(s, p), s.log) else GatheringInv(Next(s, p))
  {
    var n, s' := |s.runners|, Next(s, p);
    confirmed := p == 0 && s.judge.got == n;
    if p == 0 {
      CountBound(s.runners, AwaitingGo);
      if !confirmed {
        ReceiveTakesOne(s.queue, 0, 0);
      } else {
        forall i | 1 <= i <= n ensures Came(i) in s.log {
          assert s.runners[i - 1] == AwaitingGo;
        }
        CountBound(s.runners, AwaitingBaton);
      }
    } else {
      assert s.runners[p - 1] == Arriving;
      NumbersAdd(s.log, p, s.judge.got);
      CountSet(s.runners, p - 1, AwaitingGo, AwaitingGo);
      assert Came(p) !in s.log;
      forall j | 0 <= j < n ensures s'.runners[j] == AwaitingGo <==> Came(j + 1) in s'.log {
        if j != p - 1 { assert Came(j + 1) in s'.log <==> Came(j + 1) in s.log; }
      }
    }
  }

  /** While the judge lets the runners go only type n+1 messages exist. */
  lemma LettingJudge(s: State, roster: seq<Event>)
    requires LettingInv(s, roster) && Enabled(s, 0)
    ensures if s.judge.sent == |s.runners| then RacingInv(Next(s, 0), 0, Queued, roster)
            else LettingInv(Next(s, 0), roster)
  {
    var n := |s.runners|;
    var gos := s.judge.sent - Count(s.runners, AwaitingBaton);
    if s.judge.sent == n {
      assert Lined(s.runners, 0, Queued);
      CountTwo(s.runners, AwaitingGo, AwaitingBaton);
      HoldsSent(s.queue, n + 1, gos, n + 10, 0, n + 10);
    } else {
      HoldsSent(s.queue, n + 1, gos, n + 10, 0, n + 1);
    }
  }

  /** No runner can take a baton before the start message: none is in the queue. */
  lemma LettingRunner(s: State, p: nat, roster: seq<Event>)
    requires LettingInv(s, roster) && Enabled(s, p) && p > 0
    ensures s.runners[p - 1] == AwaitingGo
    ensures LettingInv(Next(s, p), roster)
  {
    var n := |s.runners|;
    var gos := s.judge.sent - Count(s.runners, AwaitingBaton);
    CountBound(s.queue, n + 10);
    assert s.runners[p - 1] == AwaitingGo;
    HoldsReceived(s.queue, n + 1, gos, n + 10, 0, n + 1);
    CountSet(s.runners, p - 1, AwaitingBaton, AwaitingBaton);
  }

  /** During the race the judge can only take the last runner's token. */
  lemma RacingJudge(s: State, leg: nat, stage: Stage, roster: seq<Event>)
    requires RacingInv(s, leg, stage, roster) && Enabled(s, 0)
    ensures leg == |s.runners| && stage == Queued
    ensures OverInv(Next(s, 0), roster)
  {
    var n := |s.runners|;
    HoldsReceived(s.queue, n + 1, Count(s.runners, AwaitingGo), BatonType(n, leg), Batons(stage), n);
    assert forall j :: 0 <= j < n ==> s.runners[j] == RunnerDone;
    CountBound(s.runners, AwaitingGo);
    CountTwo(Next(s, 0).queue, n + 1, n);
  }

  lemma LinedGo(r: seq<RunnerPc>, leg: nat, stage: Stage, j: nat)
    requires Lined(r, leg, stage) && j < |r| && r[j] == AwaitingGo
    ensures Lined(r[j := AwaitingBaton], leg, stage)
  {
  }

  lemma LinedTake(r: seq<RunnerPc>, leg: nat)
    requires Lined(r, leg, Queued) && leg < |r|
    ensures Lined(r[leg := Ready], leg + 1, Taken)
  {
  }

  lemma GoTaken(q: seq<int>, n: nat, gos: nat, baton: int, batons: nat)
    requires Holds(q, n + 1, gos, baton, batons) && baton != n + 1 && n + 1 in q
    ensures gos > 0 && Holds(Received(q, n + 1), n + 1, gos - 1, baton, batons)
  {
    HoldsReceived(q, n + 1, gos, baton, batons, n + 1);
  }

  /** A go message leaves the queue for a runner that the baton is not for. */
  lemma RacingGo(s: State, p: nat, leg: nat, stage: Stage, roster: seq<Event>)
    requires RacingInv(s, leg, stage, roster) && Enabled(s, p) && p > 0
    requires s.runners[p - 1] == AwaitingGo
    ensures RacingInv(Next(s, p), leg, stage, roster)
  {
    var n := |s.runners|;
    GoTaken(s.queue, n, Count(s.runners, AwaitingGo), BatonType(n, leg), Batons(stage));
    CountSet(s.runners, p - 1, AwaitingBaton, AwaitingGo);
    LinedGo(s.runners, leg, stage, p - 1);
  }

  lemma BatonIsFor(s: State, p: nat, leg: nat, stage: Stage, roster: seq<Event>)
    requires RacingInv(s, leg, stage, roster) && Enabled(s, p) && p > 0
    requires s.runners[p - 1] == AwaitingBaton
    ensures p == leg + 1 && stage == Queued
  {
    var n := |s.runners|;
    CountBound(s.queue, BatonType(n, leg));
    assert BatonFor(n, p) in s.queue;
  }

  lemma BatonTaken(q: seq<int>, n: nat, gos: nat, leg: nat)
    requires leg < n && Holds(q, n + 1, gos, BatonType(n, leg), 1) && BatonType(n, leg) in q
    ensures Holds(Received(q, BatonType(n, leg)), n + 1, gos, leg + 1, 0)
  {
    HoldsReceived(q, n + 1, gos, BatonType(n, leg), 1, BatonType(n, leg));
    HoldsNoBaton(Received(q, BatonType(n, leg)), n + 1, gos, BatonType(n, leg), leg + 1);
  }

  /** Only the runner after the finished leg can take the baton. */
  lemma RacingTake(s: State, p: nat, leg: nat, stage: Stage, roster: seq<Event>)
    requires RacingInv(s, leg, stage, roster) && Enabled(s, p) && p > 0
    requires s.runners[p - 1] == AwaitingBaton
    ensures p == leg + 1 && stage == Queued
    ensures RacingInv(Next(s, p), p, Taken, roster)
  {
    BatonIsFor(s, p, leg, stage, roster);
    BatonTaken(s.queue, |s.runners|, Count(s.runners, AwaitingGo), leg);
    CountSet(s.runners, p - 1, Ready, AwaitingGo);
    LinedTake(s.runners, leg);
  }

  lemma LinedNext(r: seq<RunnerPc>, leg: nat, stage: Stage, stage': Stage)
    requires Lined(r, leg, stage) && 1 <= leg <= |r|
    ensures Lined(r[leg - 1 := Holding(stage')], leg, stage')
  {
  }

  /** The runner on the leg starts and finishes. */
  lemma RacingLog(s: State, leg: nat, stage: Stage, roster: seq<Event>)
    requires RacingInv(s, leg, stage, roster) && leg > 0 && (stage == Taken || stage == Run)
    ensures RacingInv(Next(s, leg), leg, if stage == Taken then Run else Done, roster)
  {
    var stage' := if stage == Taken then Run else Done;
    assert s.runners[leg - 1] == Holding(stage);
    LinedNext(s.runners, leg, stage, stage');
    CountSet(s.runners, leg - 1, Holding(stage'), AwaitingGo);
  }

  /** It hands the baton on. */
  lemma RacingHand(s: State, leg: nat, roster: seq<Event>)
    requires RacingInv(s, leg, Done, roster)
    ensures RacingInv(Next(s, leg), leg, Queued, roster)
  {
    assert s.runners[leg - 1] == Handing;
    LinedNext(s.runners, leg, Done, Queued);
    CountSet(s.runners, leg - 1, RunnerDone, AwaitingGo);
    HoldsSent(s.queue, |s.runners| + 1, Count(s.runners, AwaitingGo), leg, 0, leg);
  }

  /** Only the runner on the leg does so. */
  lemma RacingRun(s: State, p: nat, leg: nat, stage: Stage, roster: seq<Event>)
    returns (stage': Stage)
    requires RacingInv(s, leg, stage, roster) && Enabled(s, p) && p > 0
    requires s.runners[p - 1] != AwaitingGo && s.runners[p - 1] != AwaitingBaton
    ensures p == leg && RacingInv(Next(s, p), leg, stage', roster)
  {
    assert s.runners[p - 1] == RunnerDone || (p == leg && s.runners[p - 1] == Holding(stage));
    if stage == Done {
      RacingHand(s, leg, roster);
      stage' := Queued;
    } else {
      RacingLog(s, leg, stage, roster);
      stage' := if stage == Taken then Run else Done;
    }
  }

  lemma RacingRunnerStep(s: State, p: nat, leg: nat, stage: Stage, roster: seq<Event>)
    returns (leg': nat, stage': Stage)
    requires RacingInv(s, leg, stage, roster) && Enabled(s, p) && p > 0
    ensures RacingInv(Next(s, p), leg', stage', roster)
  {
    leg', stage' := leg, stage;
    if s.runners[p - 1] == AwaitingGo {
      RacingGo(s, p, leg, stage, roster);
    } else if s.runners[p - 1] == AwaitingBaton {
      RacingTake(s, p, leg, stage, roster);
      leg', stage' := p, Taken;
    } else {
      stage' := RacingRun(s, p, leg, stage, roster);
    }
  }

  ghost predicate Good(s: State) {
    exists phase, roster :: Inv(s, phase, roster)
  }

  /** Every step of every process keeps the phase invariant, in the same phase or the next. */
  lemma StepKeepsInv(s: State, p: nat, phase: Phase, roster: seq<Event>)
    returns (phase': Phase, roster': seq<Event>)
    requires Inv(s, phase, roster) && Enabled(s, p)
    ensures Inv(Next(s, p), phase', roster')
    ensures phase.Letting? || phase.Racing? ==> roster' == roster
  {
    phase', roster' := phase, roster;
    match phase
    case Gathering =>
      var confirmed := GatheringStep(s, p);
      if confirmed { phase', roster' := Letting, s.log; }
    case Letting =>
      if p == 0 {
        LettingJudge(s, roster);
        if s.judge.sent == |s.runners| { phase' := Racing(0, Queued); }
      } else {
        LettingRunner(s, p, roster);
      }
    case Racing(leg, stage) =>
      if p == 0 {
        RacingJudge(s, leg, stage, roster);
        phase' := Over;
      } else {
        var leg', stage' := RacingRunnerStep(s, p, leg, stage, roster);
        phase' := Racing(leg', stage');
      }
    case Over =>
      assert false;
  }

  // ----- whole runs -----

  function JudgeLeft(n: nat, pc: JudgePc): int {
    match pc
    case Collecting(got) => 2 * n + 3 - got
    case Releasing(sent) => n + 2 - sent
    case AwaitingLast => 1
    case JudgeDone => 0
  }

  function RunnerLeft(pc: RunnerPc): nat {
    match pc
    case Arriving => 6
    case AwaitingGo => 5
    case AwaitingBaton => 4
    case Ready => 3
    case Running => 2
    case Handing => 1
    case RunnerDone => 0
  }

  function RunnersLeft(r: seq<RunnerPc>): nat {
    if r == [] then 0 else RunnerLeft(r[0]) + RunnersLeft(r[1..])
  }

  /** How many steps the processes still have to take. */
  function Left(s: State): int {
    JudgeLeft(|s.runners|, s.judge) + RunnersLeft(s.runners)
  }

  lemma {:induction false} LeftSet(r: seq<RunnerPc>, i: nat, pc: RunnerPc)
    requires i < |r|
    ensures RunnersLeft(r[i := pc]) == RunnersLeft(r) - RunnerLeft(r[i]) + RunnerLeft(pc)
  {
    if i == 0 {
      assert r[0 := pc][1..] == r[1..];
    } else {
      LeftSet(r[1..], i - 1, pc);
      assert r[i := pc][1..] == r[1..][i - 1 := pc];
    }
  }

  lemma {:induction false} LeftInit(n: nat)
    ensures RunnersLeft(Init(n).runners) == 6 * n
  {
    if n > 0 {
      LeftInit(n - 1);
      assert Init(n).runners[1..] == Init(n - 1).runners;
    }
  }

  /** The judge's loop counters never pass n. */
  predicate Within(s: State) {
    match s.judge
    case Collecting(got) => got <= |s.runners|
    case Releasing(sent) => sent <= |s.runners|
    case _ => true
  }

  lemma GoodWithin(s: State)
    requires Good(s)
    ensures Within(s) && |s.runners| >= 1 && Left(s) >= 0
  {
    var phase, roster :| Inv(s, phase, roster);
  }

  /** The measure: every step of every process lowers it by exactly one. */
  lemma StepLowersLeft(s: State, p: nat)
    requires Within(s) && Enabled(s, p)
    ensures Left(Next(s, p)) == Left(s) - 1
  {
    if p > 0 {
      LeftSet(s.runners, p - 1, Next(s, p).runners[p - 1]);
    }
  }

  /** One step of a run. */
  lemma GoodStep(s: State, p: nat)
    requires Good(s) && Enabled(s, p)
    ensures Good(Next(s, p)) && |Next(s, p).runners| == |s.runners|
    ensures 0 <= Left(Next(s, p)) == Left(s) - 1
  {
    var phase, roster :| Inv(s, phase, roster);
    var phase', roster' := StepKeepsInv(s, p, phase, roster);
    GoodWithin(s);
    StepLowersLeft(s, p);
    GoodWithin(Next(s, p));
  }

  lemma {:induction false} RunKeepsGood(s: State, schedule: seq<nat>)
    requires Good(s) && Legal(s, schedule)
    ensures Good(After(s, schedule)) && |After(s, schedule).runners| == |s.runners|
    ensures Left(After(s, schedule)) == Left(s) - |schedule|
    decreases |schedule|
  {
    if schedule != [] {
      GoodStep(s, schedule[0]);
      RunKeepsGood(Next(s, schedule[0]), schedule[1..]);
    }
  }

  /** No deadlock: as long as the judge has not taken the last token, some process can step. */
  lemma Progress(s: State)
    requires Good(s) && s.judge != JudgeDone
    ensures exists p :: 0 <= p <= |s.runners| && Enabled(s, p)
  {
    var n := |s.runners|;
    var phase, roster :| Inv(s, phase, roster);
    match phase
    case Gathering =>
      if !Enabled(s, 0) {
        CountBound(s.runners, AwaitingGo);
        var k :| 0 <= k < n && s.runners[k] != AwaitingGo;
        assert Enabled(s, k + 1);
      }
    case Letting =>
      assert Enabled(s, 0);
    case Racing(leg, stage) =>
      RacingProgress(s, leg, stage, roster);
    case Over =>
      assert false;
  }

  lemma RacingProgress(s: State, leg: nat, stage: Stage, roster: seq<Event>)
    requires RacingInv(s, leg, stage, roster)
    ensures exists p :: 0 <= p <= |s.runners| && Enabled(s, p)
  {
    var n := |s.runners|;
    if stage != Queued {
      assert s.runners[leg - 1] == Holding(stage);
      assert Enabled(s, leg);
    } else {
      CountBound(s.queue, BatonType(n, leg));
      if leg == n {
        assert Enabled(s, 0);
      } else {
        CountBound(s.runners, AwaitingGo);
        CountBound(s.queue, n + 1);
        assert s.runners[leg] == AwaitingGo ==> s.runners[leg] in s.runners;
        assert Enabled(s, leg + 1);
      }
    }
  }

  lemma {:induction false} LegsPrefix(a: nat, b: nat)
    requires a <= b
    ensures Legs(a) <= Legs(b)
  {
    if a < b {
      LegsPrefix(a, b - 1);
    }
  }

  function FullLog(roster: seq<Event>, n: nat): seq<Event> {
    roster + [Confirmed] + Legs(n) + [LastTaken]
  }

  /** What may have been observed so far: only arrivals, or all arrivals, then the
      confirmation, then a prefix of the legs in order, then the judge's last receive. */
  ghost predicate Ordered(log: seq<Event>, n: nat) {
    || (|log| <= n && forall k :: 0 <= k < |log| ==> log[k].Came?)
    || (exists roster :: Roster(roster, n) && roster + [Confirmed] <= log <= FullLog(roster, n))
  }

  lemma GoodOrdered(s: State)
    requires Good(s)
    ensures Ordered(s.log, |s.runners|)
  {
    var n := |s.runners|;
    var phase, roster :| Inv(s, phase, roster);
    if phase == Gathering {
      CountBound(s.runners, AwaitingGo);
    } else {
      if phase.Racing? {
        LegsPrefix(phase.leg, n);
        assert RaceLog(phase.leg, phase.stage) <= Legs(phase.leg) <= Legs(n);
        assert s.log <= FullLog(roster, n);
      }
      assert roster + [Confirmed] <= s.log <= FullLog(roster, n);
    }
  }

  lemma GoodQueueBound(s: State)
    requires Good(s)
    ensures |s.queue| <= |s.runners| + 1
  {
    var n := |s.runners|;
    var phase, roster :| Inv(s, phase, roster);
    CountBound(s.runners, AwaitingGo);
    match phase
    case Gathering =>
    case Letting => CountTwo(s.queue, n + 1, n + 10);
    case Racing(leg, stage) => CountTwo(s.queue, n + 1, BatonType(n, leg));
    case Over =>
  }

  /** For every n and every schedule: the events observed are in order, the queue never holds
      more than n + 1 messages, and at most 8n + 3 steps can be taken. */
  lemma RaceOrder(n: nat, schedule: seq<nat>)
    requires n >= 1 && Legal(Init(n), schedule)
    ensures var s := After(Init(n), schedule);
            && Ordered(s.log, n)
            && |s.queue| <= n + 1
            && |schedule| <= 8 * n + 3
  {
    InitInv(n);
    LeftInit(n);
    RunKeepsGood(Init(n), schedule);
    var s := After(Init(n), schedule);
    GoodOrdered(s);
    GoodQueueBound(s);
    GoodWithin(s);
  }

  /** Every run that cannot be continued has the complete log, has emptied the queue, has
      ended every process and took exactly 8n + 3 steps; a run with fewer steps can go on. */
  lemma RaceEnds(n: nat, schedule: seq<nat>)
    requires n >= 1 && Legal(Init(n), schedule)
    ensures var s := After(Init(n), schedule);
            |s.runners| == n && (Stuck(s) <==> |schedule| == 8 * n + 3)
    ensures var s := After(Init(n), schedule);
            Stuck(s) ==>
              && s.queue == [] && s.judge == JudgeDone
              && (forall j :: 0 <= j < n ==> s.runners[j] == RunnerDone)
              && exists roster :: Roster(roster, n) && s.log == FullLog(roster, n)
  {
    InitInv(n);
    LeftInit(n);
    RunKeepsGood(Init(n), schedule);
    var s := After(Init(n), schedule);
    GoodWithin(s);
    var phase, roster :| Inv(s, phase, roster);
    if s.judge != JudgeDone {
      Progress(s);
      var p :| 0 <= p <= n && Enabled(s, p);
      GoodStep(s, p);
    } else {
      assert phase == Over;
      assert s.log == FullLog(roster, n);
      AllDoneLeft(s.runners);
      forall p: nat ensures !Enabled(s, p) {
        if 1 <= p <= n { assert s.runners[p - 1] == RunnerDone; }
      }
    }
  }

  lemma {:induction false} AllDoneLeft(r: seq<RunnerPc>)
    requires AllIn(r, RunnerDone, RunnerDone)
    ensures RunnersLeft(r) == 0
  {
    if r != [] {
      AllDoneLeft(r[1..]);
    }
  }

  lemma {:induction false} CountSingle<T>(s: seq<T>, k: nat, x: T)
    requires k < |s| && s[k] == x
    requires forall j :: 0 <= j < |s| && j != k ==> s[j] != x
    ensures Count(s, x) == 1
  {
    CountSet(s, k, x, x);
    CountConcat(s[..k], [s[k]] + s[k + 1..], x);
    CountBound(s[..k], x);
    CountBound(s[k + 1..], x);
    assert s == s[..k] + ([s[k]] + s[k + 1..]);
  }

  /** Runners that have the baton: between taking it and handing it on. */
  ghost function Carriers(r: seq<RunnerPc>): nat {
    Count(r, Ready) + Count(r, Running) + Count(r, Handing)
  }

  lemma NoCarriers(r: seq<RunnerPc>)
    requires Ready !in r && Running !in r && Handing !in r
    ensures Carriers(r) == 0
  {
    CountBound(r, Ready);
    CountBound(r, Running);
    CountBound(r, Handing);
  }

  lemma LinedCarriers(r: seq<RunnerPc>, leg: nat, stage: Stage)
    requires Lined(r, leg, stage) && leg <= |r| && (leg == 0 ==> stage == Queued)
    ensures Carriers(r) + Batons(stage) == 1
  {
    if stage == Queued {
      NoCarriers(r);
    } else {
      CountSingle(r, leg - 1, Holding(stage));
      CountBound(r, Ready);
      CountBound(r, Running);
      CountBound(r, Handing);
    }
  }

  ghost predicate OneBatonIn(s: State) {
    && (s.judge == AwaitingLast ==>
          Carriers(s.runners) + (|s.queue| - Count(s.queue, |s.runners| + 1)) == 1)
    && (s.judge != AwaitingLast ==> Carriers(s.runners) == 0)
  }

  lemma InvOneBaton(s: State, phase: Phase, roster: seq<Event>)
    requires Inv(s, phase, roster)
    ensures OneBatonIn(s)
  {
    var n := |s.runners|;
    match phase
    case Racing(leg, stage) =>
      CountTwo(s.queue, n + 1, BatonType(n, leg));
      LinedCarriers(s.runners, leg, stage);
    case _ =>
      NoCarriers(s.runners);
  }

  /** From the start message until the judge takes the last token there is exactly one baton:
      one carrier, or one queued message that is not a go message. Before and after, nobody
      carries. */
  lemma OneBaton(n: nat, schedule: seq<nat>)
    requires n >= 1 && Legal(Init(n), schedule)
    ensures OneBatonIn(After(Init(n), schedule))
  {
    InitInv(n);
    RunKeepsGood(Init(n), schedule);
    var s := After(Init(n), schedule);
    var phase, roster :| Inv(s, phase, roster);
    InvOneBaton(s, phase, roster);
  }

  // ----- the program itself -----

  /** The shared queue and the positions of all processes, changed in place by the steps. */
  class Stadium {
    var queue: seq<int>
    var judge: JudgePc
    var runners: seq<RunnerPc>
    var log: seq<Event>

    ghost function View(): State
      reads this
    {
      State(queue, judge, runners, log)
    }

    constructor (n: nat)
      ensures View() == Init(n)
    {
      queue, judge, runners, log := [], Collecting(0), seq(n, _ => Arriving), [];
    }

    method Send(t: int)
      modifies this`queue
      ensures queue == old(queue) + [t]
    {
      queue := queue + [t];
    }

    /** A receive scans for the first message of the wanted type. */
    method Receive(t: int)
      requires CanReceive(queue, t)
      modifies this`queue
      ensures queue == Received(old(queue), t)
    {
      if t == 0 {
        queue := queue[1..];
      } else {
        var k := 0;
        while queue[k] != t
          invariant 0 <= k < |queue| && t in queue && t !in queue[..k]
          decreases |queue| - k
        {
          k := k + 1;
        }
        ghost var first := FirstOf(queue, t);
        assert first == k;
        queue := queue[..k] + queue[k + 1..];
      }
    }

    method JudgeStep()
      requires JudgeEnabled(View())
      modifies this
      ensures View() == JudgeNext(old(View()))
    {
      var n := |runners|;
      match judge
      case Collecting(got) =>
        if got < n {
          Receive(0);
          judge := Collecting(got + 1);
        } else {
          log := log + [Confirmed];
          judge := Releasing(0);
        }
      case Releasing(sent) =>
        if sent < n {
          Send(n + 1);
          judge := Releasing(sent + 1);
        } else {
          Send(n + 10);
          judge := AwaitingLast;
        }
      case AwaitingLast =>
        Receive(n);
        log := log + [LastTaken];
        judge := JudgeDone;
    }

    method RunnerStep(i: nat)
      requires 1 <= i <= |runners| && RunnerEnabled(View(), i)
      modifies this
      ensures View() == RunnerNext(old(View()), i)
    {
      var n := |runners|;
      match runners[i - 1]
      case Arriving =>
        log := log + [Came(i)];
        Send(i);
        runners := runners[i - 1 := AwaitingGo];
      case AwaitingGo =>
        Receive(n + 1);
        runners := runners[i - 1 := AwaitingBaton];
      case AwaitingBaton =>
        if i == 1 {
          Receive(n + 10);
        } else {
          Receive(i - 1);
        }
        runners := runners[i - 1 := Ready];
      case Ready =>
        log := log + [Started(i)];
        runners := runners[i - 1 := Running];
      case Running =>
        log := log + [Ended(i)];
        runners := runners[i - 1 := Handing];
      case Handing =>
        Send(i);
        runners := runners[i - 1 := RunnerDone];
    }

    /** Lets any process that can step take a step, until the judge is done. */
    method Race()
      requires |runners| >= 1 && View() == Init(|runners|)
      modifies this
      ensures queue == [] && judge == JudgeDone && |runners| == old(|runners|)
      ensures forall j :: 0 <= j < |runners| ==> runners[j] == RunnerDone
      ensures exists roster :: Roster(roster, |runners|) && log == FullLog(roster, |runners|)
    {
      InitInv(|runners|);
      GoodWithin(View());
      while judge != JudgeDone
        invariant Good(View()) && Left(View()) >= 0 && |runners| == old(|runners|)
        decreases Left(View())
      {
        Progress(View());
        var p :| 0 <= p <= |runners| && Enabled(State(queue, judge, runners, log), p);
        GoodStep(View(), p);
        if p == 0 {
          JudgeStep();
        } else {
          RunnerStep(p);
        }
      }
      ghost var phase, roster :| Inv(View(), phase, roster);
      assert phase == Over;
      assert log == FullLog(roster, |runners|);
    }
  }
}
