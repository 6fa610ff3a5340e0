/** The eagles and their mother of eagles/main.cpp: any number of eagles share a bowl that the
    mother refills. Two semaphores, `bowlBlock` and `callMom`, guard the counter `food`. Every
    semaphore call and every access to the counter is a step of its own. */
module Eagles {

  /** An eagle's position in its loop body. */
  datatype EaglePc = Awake | Holding | Eaten | PostingBowl | CallingMom

  /** `meals` is the loop counter of the eagle: iterations already finished. */
  datatype Eagle = Eagle(pc: EaglePc, meals: nat)

  datatype MomPc = Resting | Called | Refilled

  /** E eagles run K iterations each over a bowl of N portions. `refills` and `eaten` count
      what happened; the program does not store them. */
  datatype State = State(bowlBlock: nat, callMom: nat, food: int, eagles: seq<Eagle>, mom: MomPc,
                         eaten: nat, refills: nat)

  datatype Setting = Setting(E: nat, K: nat, N: nat)

  function Init(c: Setting): State {
    State(1, 0, c.N, seq(c.E, _ => Eagle(Awake, 0)), Resting, 0, 0)
  }

  // ----- one step of a process; process E is the mother -----

  predicate EagleEnabled(c: Setting, s: State, i: nat)
    requires i < |s.eagles|
  {
    s.eagles[i].pc == Awake ==> s.eagles[i].meals < c.K && s.bowlBlock > 0
  }

  predicate MomEnabled(s: State) {
    s.mom == Resting ==> s.callMom > 0
  }

  predicate Enabled(c: Setting, s: State, p: nat) {
    if p == |s.eagles| then MomEnabled(s) else p < |s.eagles| && EagleEnabled(c, s, p)
  }

  function At(s: State, i: nat, pc: EaglePc): State
    requires i < |s.eagles|
  {
    s.(eagles := s.eagles[i := s.eagles[i].(pc := pc)])
  }

  function Slept(s: State, i: nat): State
    requires i < |s.eagles|
  {
    s.(eagles := s.eagles[i := Eagle(Awake, s.eagles[i].meals + 1)])
  }

  function EagleNext(c: Setting, s: State, i: nat): State
    requires i < |s.eagles| && EagleEnabled(c, s, i)
  {
    match s.eagles[i].pc
    case Awake => At(s, i, Holding).(bowlBlock := s.bowlBlock - 1)
    case Holding => At(s, i, Eaten).(food := s.food - 1, eaten := s.eaten + 1)
    case Eaten => At(s, i, if s.food > 0 then PostingBowl else CallingMom)
    case PostingBowl => Slept(s, i).(bowlBlock := s.bowlBlock + 1)
    case CallingMom => Slept(s, i).(callMom := s.callMom + 1)
  }

  function MomNext(c: Setting, s: State): State
    requires MomEnabled(s)
  {
    match s.mom
    case Resting => s.(mom := Called, callMom := s.callMom - 1)
    case Called => s.(mom := Refilled, food := c.N, refills := s.refills + 1)
    case Refilled => s.(mom := Resting, bowlBlock := s.bowlBlock + 1)
  }

  function Next(c: Setting, s: State, p: nat): State
    requires Enabled(c, s, p)
  {
    if p == |s.eagles| then MomNext(c, s) else EagleNext(c, s, p)
  }

  predicate Legal(c: Setting, s: State, schedule: seq<nat>)
    decreases |schedule|
  {
    schedule == [] ||
    (Enabled(c, s, schedule[0]) && Legal(c, Next(c, s, schedule[0]), schedule[1..]))
  }

  function After(c: Setting, s: State, schedule: seq<nat>): State
    requires Legal(c, s, schedule)
    decreases |schedule|
  {
    if schedule == [] then s else After(c, Next(c, s, schedule[0]), schedule[1..])
  }

  // ----- sums over the eagles -----

  /** 1 for an eagle between its wait and its post. */
  function Inside(e: Eagle): nat {
    if e.pc == Awake then 0 else 1
  }

  /** Portions this eagle has taken. */
  function Taken(e: Eagle): nat {
    e.meals + if e.pc in {Eaten, PostingBowl, CallingMom} then 1 else 0
  }

  /** Steps this eagle has taken, four to an iteration. */
  function Steps(e: Eagle): nat {
    4 * e.meals + match e.pc
                  case Awake => 0
                  case Holding => 1
                  case Eaten => 2
                  case _ => 3
  }

  function Sum(f: Eagle -> nat, eagles: seq<Eagle>): nat {
    if eagles == [] then 0 else f(eagles[0]) + Sum(f, eagles[1..])
  }

  lemma {:induction false} SumSet(f: Eagle -> nat, eagles: seq<Eagle>, i: nat, e: Eagle)
    requires i < |eagles|
    ensures Sum(f, eagles[i := e]) == Sum(f, eagles) - f(eagles[i]) + f(e)
  {
    if i == 0 {
      assert eagles[0 := e][1..] == eagles[1..];
    } else {
      SumSet(f, eagles[1..], i - 1, e);
      assert eagles[i := e][1..] == eagles[1..][i - 1 := e];
    }
  }

  lemma {:induction false} SumAtLeast(f: Eagle -> nat, eagles: seq<Eagle>, i: nat)
    requires i < |eagles|
    ensures Sum(f, eagles) >= f(eagles[i])
  {
    if i > 0 {
      SumAtLeast(f, eagles[1..], i - 1);
    }
  }

  /** Two different eagles inside count twice. */
  lemma {:induction false} SumTwo(f: Eagle -> nat, eagles: seq<Eagle>, i: nat, j: nat)
    requires i < j < |eagles|
    ensures Sum(f, eagles) >= f(eagles[i]) + f(eagles[j])
  {
    if i == 0 {
      SumAtLeast(f, eagles[1..], j - 1);
    } else {
      SumTwo(f, eagles[1..], i - 1, j - 1);
    }
  }

  lemma {:induction false} SumBounds(f: Eagle -> nat, eagles: seq<Eagle>, lo: nat, hi: nat)
    requires forall i :: 0 <= i < |eagles| ==> lo <= f(eagles[i]) <= hi
    ensures lo * |eagles| <= Sum(f, eagles) <= hi * |eagles|
  {
    if eagles != [] {
      SumBounds(f, eagles[1..], lo, hi);
      TimesStep(lo, |eagles|);
      TimesStep(hi, |eagles|);
    }
  }

  lemma TimesStep(a: nat, n: nat)
    requires n >= 1
    ensures a * n == a * (n - 1) + a
  {
  }

  lemma FourTimes(k: nat, e: nat)
    ensures (4 * k) * e == 4 * (k * e)
  {
  }

  // ----- the invariant -----

  /** Everything that owns the right to touch the bowl. */
  function Tokens(s: State): nat {
    s.bowlBlock + s.callMom + Sum(Inside, s.eagles) + (if s.mom == Resting then 0 else 1)
  }

  ghost predicate EagleFine(c: Setting, e: Eagle, food: int) {
    && (if e.pc == Awake then e.meals <= c.K else e.meals < c.K)
    && match e.pc
       case Awake => true
       case Holding => 1 <= food <= c.N
       case Eaten => 0 <= food < c.N
       case PostingBowl => 1 <= food < c.N
       case CallingMom => food == 0
  }

  ghost predicate Inv(c: Setting, s: State) {
    && c.N >= 1 && |s.eagles| == c.E
    && Tokens(s) == 1
    && (forall i :: 0 <= i < c.E ==> EagleFine(c, s.eagles[i], s.food))
    && (s.bowlBlock == 1 ==> 1 <= s.food <= c.N)
    && (s.callMom == 1 || s.mom == Called ==> s.food == 0)
    && (s.mom == Refilled ==> s.food == c.N)
    && s.eaten == Sum(Taken, s.eagles)
    && s.eaten + s.food == c.N * (1 + s.refills)
  }

  lemma InitInv(c: Setting)
    requires c.N >= 1
    ensures Inv(c, Init(c))
  {
    SumBounds(Inside, Init(c).eagles, 0, 0);
    SumBounds(Taken, Init(c).eagles, 0, 0);
  }

  /** While one eagle is inside, no other eagle is, both semaphores are down and the mother rests. */
  lemma Alone(s: State, i: nat)
    requires Tokens(s) == 1 && i < |s.eagles| && s.eagles[i].pc != Awake
    ensures s.bowlBlock == 0 && s.callMom == 0 && s.mom == Resting
    ensures forall j :: 0 <= j < |s.eagles| && j != i ==> s.eagles[j].pc == Awake
  {
    SumAtLeast(Inside, s.eagles, i);
    forall j | 0 <= j < |s.eagles| && j != i ensures s.eagles[j].pc == Awake {
      if s.eagles[j].pc != Awake {
        SumTwo(Inside, s.eagles, if i < j then i else j, if i < j then j else i);
      }
    }
  }

  /** While the token is elsewhere no eagle is inside. */
  lemma NobodyInside(s: State)
    requires Tokens(s) == 1 && (s.bowlBlock > 0 || s.callMom > 0 || s.mom != Resting)
    ensures forall j :: 0 <= j < |s.eagles| ==> s.eagles[j].pc == Awake
  {
    forall j | 0 <= j < |s.eagles| ensures s.eagles[j].pc == Awake {
      SumAtLeast(Inside, s.eagles, j);
    }
  }

  lemma EagleKeepsInv(c: Setting, s: State, i: nat)
    requires Inv(c, s) && i < c.E && EagleEnabled(c, s, i)
    ensures Inv(c, EagleNext(c, s, i))
  {
    var s' := EagleNext(c, s, i);
    SumSet(Inside, s.eagles, i, s'.eagles[i]);
    SumSet(Taken, s.eagles, i, s'.eagles[i]);
    if s.eagles[i].pc == Awake {
      NobodyInside(s);
    } else {
      Alone(s, i);
    }
  }

  lemma MomKeepsInv(c: Setting, s: State)
    requires Inv(c, s) && MomEnabled(s)
    ensures Inv(c, MomNext(c, s))
  {
    NobodyInside(s);
    if s.mom == Called {
      assert s.eaten + c.N == c.N * (1 + s.refills) + c.N == c.N * (2 + s.refills);
    }
  }

  lemma {:induction false} RunKeepsInv(c: Setting, s: State, schedule: seq<nat>)
    requires Inv(c, s) && Legal(c, s, schedule)
    ensures Inv(c, After(c, s, schedule))
    ensures StepsTaken(After(c, s, schedule)) == StepsTaken(s) + |schedule|
    decreases |schedule|
  {
    if schedule != [] {
      var p := schedule[0];
      if p == c.E {
        MomKeepsInv(c, s);
      } else {
        EagleKeepsInv(c, s, p);
      }
      StepCounts(c, s, p);
      RunKeepsInv(c, Next(c, s, p), schedule[1..]);
    }
  }

  // ----- progress and the end -----

  /** Steps taken so far: four to an eagle's iteration, three to a refill. */
  function StepsTaken(s: State): int {
    Sum(Steps, s.eagles) + 3 * s.refills +
    match s.mom
    case Resting => 0
    case Called => 1
    case Refilled => -1
  }

  lemma StepCounts(c: Setting, s: State, p: nat)
    requires Enabled(c, s, p)
    ensures StepsTaken(Next(c, s, p)) == StepsTaken(s) + 1
  {
    if p < |s.eagles| {
      SumSet(Steps, s.eagles, p, Next(c, s, p).eagles[p]);
    }
  }

  /** All steps any run can take. */
  function AllSteps(c: Setting): nat
    requires c.N >= 1
  {
    4 * (c.K * c.E) + 3 * (c.K * c.E / c.N)
  }

  lemma TimesAtLeast(n: nat, x: int)
    requires x >= 1
    ensures n * x >= n
  {
    assert n * x == n * (x - 1) + n;
  }

  lemma QuotientAtLeast(total: nat, n: nat, r: nat)
    requires n >= 1 && n * r <= total
    ensures r <= total / n
  {
    var q := total / n;
    assert total == n * q + total % n;
    assert n * r == n * q + n * (r - q);
    if r > q {
      TimesAtLeast(n, r - q);
      assert false;
    }
  }

  lemma QuotientIs(total: nat, n: nat, r: nat, rest: nat)
    requires total == n * r + rest && rest < n
    ensures total / n == r && total % n == rest
  {
    QuotientAtLeast(total, n, r);
    var q := total / n;
    assert total == n * q + total % n;
    assert n * q == n * r + n * (q - r);
    if q > r {
      TimesAtLeast(n, q - r);
      assert false;
    }
  }

  /** Refills done, and the one announced, fit into the portions the eagles can take. */
  lemma RefillBound(c: Setting, s: State)
    requires Inv(c, s)
    ensures s.refills + (if s.mom == Called then 1 else 0) <= c.K * c.E / c.N
  {
    SumBounds(Taken, s.eagles, 0, c.K);
    FoodBound(c, s);
    assert c.N * (1 + s.refills) == c.N * s.refills + c.N;
    QuotientAtLeast(c.K * c.E, c.N, s.refills + (if s.mom == Called then 1 else 0));
  }

  /** The measure is bounded: AllSteps(c) - StepsTaken falls by one with every step. */
  lemma StepsBound(c: Setting, s: State)
    requires Inv(c, s)
    ensures StepsTaken(s) <= AllSteps(c)
  {
    RefillBound(c, s);
    StepsSum(c, s);
  }

  lemma StepsSum(c: Setting, s: State)
    requires Inv(c, s)
    ensures Sum(Steps, s.eagles) <= 4 * (c.K * c.E)
  {
    forall i | 0 <= i < c.E ensures Steps(s.eagles[i]) <= 4 * c.K {
      assert EagleFine(c, s.eagles[i], s.food);
    }
    SumBounds(Steps, s.eagles, 0, 4 * c.K);
    FourTimes(c.K, c.E);
  }

  lemma FoodBound(c: Setting, s: State)
    requires Inv(c, s)
    ensures 0 <= s.food <= c.N
  {
    if s.bowlBlock == 0 && s.callMom == 0 && s.mom == Resting {
      if forall i :: 0 <= i < c.E ==> s.eagles[i].pc == Awake {
        SumBounds(Inside, s.eagles, 0, 0);
      }
      var i :| 0 <= i < c.E && s.eagles[i].pc != Awake;
      assert EagleFine(c, s.eagles[i], s.food);
    }
  }

  ghost predicate Finished(c: Setting, s: State) {
    && (forall i :: 0 <= i < |s.eagles| ==> s.eagles[i] == Eagle(Awake, c.K))
    && s.mom == Resting && s.callMom == 0
  }

  /** While an eagle has iterations left, or a call is pending, some process can step. */
  lemma Progress(c: Setting, s: State)
    requires Inv(c, s) && !Finished(c, s)
    ensures exists p :: 0 <= p <= c.E && Enabled(c, s, p)
  {
    if !Enabled(c, s, c.E) {
      var i :| 0 <= i < c.E && s.eagles[i] != Eagle(Awake, c.K);
      if s.bowlBlock > 0 {
        NobodyInside(s);
        assert Enabled(c, s, i);
      } else if forall j :: 0 <= j < c.E ==> s.eagles[j].pc == Awake {
        SumBounds(Inside, s.eagles, 0, 0);
      } else {
        var j :| 0 <= j < c.E && s.eagles[j].pc != Awake;
        assert Enabled(c, s, j);
      }
    }
  }

  /** What is left when everybody is through. */
  lemma EndCount(c: Setting, s: State)
    requires Inv(c, s) && Finished(c, s)
    ensures s.eaten == c.E * c.K
    ensures s.refills == c.E * c.K / c.N
    ensures s.food == c.N - c.E * c.K % c.N
    ensures StepsTaken(s) == AllSteps(c)
    ensures s.bowlBlock == 1
  {
    SumBounds(Taken, s.eagles, c.K, c.K);
    SumBounds(Steps, s.eagles, 4 * c.K, 4 * c.K);
    SumBounds(Inside, s.eagles, 0, 0);
    var total := c.K * c.E;
    FourTimes(c.K, c.E);
    assert c.N * (1 + s.refills) == c.N * s.refills + c.N;
    QuotientIs(total, c.N, s.refills, c.N - s.food);
  }

  lemma StepAdvances(c: Setting, s: State, p: nat)
    requires Inv(c, s) && Enabled(c, s, p)
    ensures Inv(c, Next(c, s, p))
    ensures StepsTaken(Next(c, s, p)) == StepsTaken(s) + 1 <= AllSteps(c)
  {
    if p == c.E { MomKeepsInv(c, s); } else { EagleKeepsInv(c, s, p); }
    StepCounts(c, s, p);
    StepsBound(c, Next(c, s, p));
  }

  lemma FinishedAtLast(c: Setting, s: State)
    requires Inv(c, s)
    ensures Finished(c, s) <==> StepsTaken(s) == AllSteps(c)
  {
    if Finished(c, s) {
      EndCount(c, s);
    } else {
      Progress(c, s);
      var p :| 0 <= p <= c.E && Enabled(c, s, p);
      StepAdvances(c, s, p);
    }
  }

  /** In every state of every run one token exists, whoever is about to eat finds between one
      and N portions, the mother refills an empty bowl only, and no portion is lost. */
  lemma BowlSafe(c: Setting, schedule: seq<nat>)
    requires c.N >= 1 && Legal(c, Init(c), schedule)
    ensures var s := After(c, Init(c), schedule);
            && Tokens(s) == 1
            && (forall i :: 0 <= i < |s.eagles| && s.eagles[i].pc == Holding ==> 1 <= s.food <= c.N)
            && (forall i, j :: 0 <= i < j < |s.eagles| ==>
                  s.eagles[i].pc == Awake || s.eagles[j].pc == Awake)
            && (s.mom == Called ==> s.food == 0)
            && s.eaten + s.food == c.N * (1 + s.refills)
  {
    InitInv(c);
    RunKeepsInv(c, Init(c), schedule);
    var s := After(c, Init(c), schedule);
    forall i, j | 0 <= i < j < |s.eagles|
      ensures s.eagles[i].pc == Awake || s.eagles[j].pc == Awake
    {
      if s.eagles[i].pc != Awake { Alone(s, i); }
    }
    forall i | 0 <= i < |s.eagles| && s.eagles[i].pc == Holding ensures 1 <= s.food <= c.N {
      assert EagleFine(c, s.eagles[i], s.food);
    }
  }

  /** Every run ends, after exactly 4EK + 3(EK/N) steps, with every eagle fed K times, EK/N
      refills and N - EK mod N portions left; before that some process can always step. */
  lemma FeedingEnds(c: Setting, schedule: seq<nat>)
    requires c.N >= 1 && Legal(c, Init(c), schedule)
    ensures var s := After(c, Init(c), schedule);
            var stuck := forall p: nat :: !Enabled(c, s, p);
            && |schedule| <= AllSteps(c)
            && (stuck <==> |schedule| == AllSteps(c))
            && (stuck ==> Finished(c, s) && s.eaten == c.E * c.K
                          && s.refills == c.E * c.K / c.N && s.food == c.N - c.E * c.K % c.N)
  {
    InitInv(c);
    RunKeepsInv(c, Init(c), schedule);
    SumBounds(Steps, Init(c).eagles, 0, 0);
    var s := After(c, Init(c), schedule);
    StepsBound(c, s);
    FinishedAtLast(c, s);
    if Finished(c, s) {
      EndCount(c, s);
      forall p: nat ensures !Enabled(c, s, p) {
        if p < c.E { assert s.eagles[p] == Eagle(Awake, c.K); }
      }
    } else {
      Progress(c, s);
    }
  }

  // ----- the program itself -----

  /** The shared memory and the positions of all processes, changed in place by the steps. */
  class Nest {
    const c: Setting
    var bowlBlock: nat
    var callMom: nat
    var food: int
    var eagles: seq<Eagle>
    var mom: MomPc
    var eaten: nat    // a tally, not kept by the program
    var refills: nat  // likewise

    ghost function View(): State
      reads this
    {
      State(bowlBlock, callMom, food, eagles, mom, eaten, refills)
    }

    constructor (c: Setting)
      ensures this.c == c && View() == Init(c)
    {
      this.c := c;
      bowlBlock, callMom, food := 1, 0, c.N;
      eagles, mom := seq(c.E, _ => Eagle(Awake, 0)), Resting;
      eaten, refills := 0, 0;
    }

    method EagleStep(i: nat)
      requires i < |eagles| && EagleEnabled(c, View(), i)
      modifies this
      ensures View() == EagleNext(c, old(View()), i)
    {
      var e := eagles[i];
      match e.pc
      case Awake =>
        bowlBlock := bowlBlock - 1;
        eagles := eagles[i := e.(pc := Holding)];
      case Holding =>
        food := food - 1;
        eaten := eaten + 1;
        eagles := eagles[i := e.(pc := Eaten)];
      case Eaten =>
        if food > 0 {
          eagles := eagles[i := e.(pc := PostingBowl)];
        } else {
          eagles := eagles[i := e.(pc := CallingMom)];
        }
      case PostingBowl =>
        bowlBlock := bowlBlock + 1;
        eagles := eagles[i := Eagle(Awake, e.meals + 1)];
      case CallingMom =>
        callMom := callMom + 1;
        eagles := eagles[i := Eagle(Awake, e.meals + 1)];
    }

    method MotherStep()
      requires MomEnabled(View())
      modifies this
      ensures View() == MomNext(c, old(View()))
    {
      match mom
      case Resting =>
        callMom := callMom - 1;
        mom := Called;
      case Called =>
        food := c.N;
        refills := refills + 1;
        mom := Refilled;
      case Refilled =>
        bowlBlock := bowlBlock + 1;
        mom := Resting;
    }

    /** Lets any process that can step take a step, `steps` times over. */
    method Feed()
      requires c.N >= 1 && View() == Init(c)
      modifies this
      ensures Finished(c, View()) && eaten == c.E * c.K
      ensures food == c.N - c.E * c.K % c.N
    {
      InitInv(c);
      SumBounds(Steps, eagles, 0, 0);
      var steps := 0;
      while steps < AllSteps(c)
        invariant Inv(c, View()) && StepsTaken(View()) == steps <= AllSteps(c)
      {
        FinishedAtLast(c, View());
        Progress(c, View());
        var p :| 0 <= p <= |eagles| &&
                 Enabled(c, State(bowlBlock, callMom, food, eagles, mom, eaten, refills), p);
        StepAdvances(c, View(), p);
        if p == |eagles| {
          MotherStep();
        } else {
          EagleStep(p);
        }
        steps := steps + 1;
      }
      FinishedAtLast(c, View());
      EndCount(c, View());
    }
  }
}
