/**
  The semaphore barrier: a counter guarded by a mutex semaphore, and a turnstile
  semaphore that the N-th caller opens and every passer posts again.  Any number
  of callers run `barrier_wait` concurrently; each semaphore operation and each
  load or store of the counter is a step of its own.  Semaphore calls succeed.
 */
module Barrier {
  import opened Totals

  /** The next action of a caller; `Write` holds the value it loaded. */
  datatype Caller = Start | Read | Write(loaded: int) | Test | Open | Release | Wait | Repost | Returned

  /** `opens` counts the posts made by the opening branch. */
  datatype State = State(n: int, count: int, mutex: nat, turnstile: nat, callers: seq<Caller>, opens: nat)

  function Initial(n: int, callers: nat): State {
    State(n, 0, 1, 0, seq(callers, _ => Start), 0)
  }

  predicate Enabled(s: State, i: nat) {
    && i < |s.callers|
    && match s.callers[i]
       case Start => s.mutex > 0
       case Wait => s.turnstile > 0
       case Returned => false
       case _ => true
  }

  function Step(s: State, i: nat): State
    requires Enabled(s, i)
  {
    var at := (c: Caller) => s.callers[i := c];
    match s.callers[i]
    case Start => s.(mutex := s.mutex - 1, callers := at(Read))
    case Read => s.(callers := at(Write(s.count)))
    case Write(loaded) => s.(count := loaded + 1, callers := at(Test))
    case Test => s.(callers := at(if s.count == s.n then Open else Release))
    case Open => s.(turnstile := s.turnstile + 1, opens := s.opens + 1, callers := at(Release))
    case Release => s.(mutex := s.mutex + 1, callers := at(Wait))
    case Wait => s.(turnstile := s.turnstile - 1, callers := at(Repost))
    case Repost => s.(turnstile := s.turnstile + 1, callers := at(Returned))
  }

  /* ---------- the invariant ---------- */

  function Holds(c: Caller): nat { if c in {Read, Test, Open, Release} || c.Write? then 1 else 0 }

  /** Has finished its increment. */
  function Counted(c: Caller): nat { if c in {Start, Read} || c.Write? then 0 else 1 }

  /** Is between its turnstile wait and its second post. */
  function Inside(c: Caller): nat { if c == Repost then 1 else 0 }

  predicate Passed(c: Caller) { c in {Repost, Returned} }

  /** A caller that is about to open the turnstile. */
  predicate Opening(s: State) {
    exists i :: 0 <= i < |s.callers| && (s.callers[i] == Open || (s.callers[i] == Test && s.count == s.n))
  }

  predicate Opened(s: State) {
    1 <= s.n <= s.count && !Opening(s)
  }

  predicate CallerInv(s: State, c: Caller) {
    && (c.Write? ==> c.loaded == s.count)
    && (c == Open ==> 1 <= s.n == s.count)
    && (Passed(c) ==> s.opens == 1)
  }

  predicate Inv(s: State) {
    && s.mutex + Total(s.callers, Holds) == 1
    && s.count == Total(s.callers, Counted)
    && s.turnstile + Total(s.callers, Inside) == s.opens
    && s.opens == (if Opened(s) then 1 else 0)
    && forall i :: 0 <= i < |s.callers| ==> CallerInv(s, s.callers[i])
  }

  lemma InitialInv(n: int, callers: nat)
    ensures Inv(Initial(n, callers))
  {
    var s := Initial(n, callers);
    TotalConstant(s.callers, Holds, 0);
    TotalConstant(s.callers, Counted, 0);
    TotalConstant(s.callers, Inside, 0);
  }

  /** A caller inside the mutex is there alone. */
  lemma MutualExclusion(s: State, i: nat)
    requires Inv(s) && i < |s.callers| && Holds(s.callers[i]) == 1
    ensures s.mutex == 0
    ensures forall j :: 0 <= j < |s.callers| && j != i ==> Holds(s.callers[j]) == 0
  {
    TotalAtLeast(s.callers, i, Holds);
    forall j | 0 <= j < |s.callers| && j != i ensures Holds(s.callers[j]) == 0 {
      TotalPair(s.callers, if i < j then i else j, if i < j then j else i, Holds);
    }
  }

  /** The turnstile is opened by the post of the N-th caller and by no other step. */
  lemma OpenedAfter(s: State, i: nat)
    requires Inv(s) && Enabled(s, i)
    ensures Opened(Step(s, i)) <==> Opened(s) || s.callers[i] == Open
  {
    var t := Step(s, i);
    assert t.callers[i] == t.callers[i];
    assert forall j :: 0 <= j < |s.callers| && j != i ==> t.callers[j] == s.callers[j];
    if Holds(s.callers[i]) == 1 {
      MutualExclusion(s, i);
    }
  }

  lemma StepTotals(s: State, i: nat)
    requires Inv(s) && Enabled(s, i)
    ensures var t := Step(s, i);
      && t.mutex + Total(t.callers, Holds) == 1
      && t.count == Total(t.callers, Counted)
      && t.turnstile + Total(t.callers, Inside) == t.opens
  {
    var c := Step(s, i).callers[i];
    assert CallerInv(s, s.callers[i]);
    assert Step(s, i).callers == s.callers[i := c];
    TotalUpdate(s.callers, i, c, Holds);
    TotalUpdate(s.callers, i, c, Counted);
    TotalUpdate(s.callers, i, c, Inside);
    hide Total, Opened, Passed;
  }

  lemma StepCallers(s: State, i: nat)
    requires Inv(s) && Enabled(s, i)
    ensures var t := Step(s, i);
      && t.opens == (if Opened(t) then 1 else 0)
      && forall j :: 0 <= j < |t.callers| ==> CallerInv(t, t.callers[j])
  {
    var t := Step(s, i);
    assert CallerInv(s, s.callers[i]);
    if Holds(s.callers[i]) == 1 {
      MutualExclusion(s, i);
    }
    TotalAtLeast(s.callers, i, Counted);
    TotalAtLeast(s.callers, i, Inside);
    OpenedAfter(s, i);
    OpenedNow(s);
    hide Total, Opened, Opening;
    forall j | 0 <= j < |t.callers| ensures CallerInv(t, t.callers[j]) {
      assert CallerInv(s, s.callers[j]) && (j != i ==> t.callers[j] == s.callers[j]);
    }
  }

  lemma OpenedNow(s: State)
    ensures Opened(s) ==> 1 <= s.n <= s.count
    ensures forall i :: 0 <= i < |s.callers| && s.callers[i] == Open ==> !Opened(s)
    ensures forall i :: 0 <= i < |s.callers| && s.callers[i] == Test && s.count == s.n ==> !Opened(s)
  {}

  lemma StepInv(s: State, i: nat)
    requires Inv(s) && Enabled(s, i)
    ensures Inv(Step(s, i))
  {
    StepTotals(s, i);
    StepCallers(s, i);
    hide Step, Total, Opened, CallerInv, Enabled;
  }

  /* ---------- progress and termination ---------- */

  ghost predicate CanMove(s: State) {
    exists i :: Enabled(s, i)
  }

  /** Who can move: a caller waits only for the mutex while somebody is inside it, and
      at the turnstile before the opening or while somebody is passing. */
  lemma WhoCanMove(s: State, i: nat)
    requires Inv(s) && i < |s.callers|
    ensures Enabled(s, i) <==>
            match s.callers[i]
            case Start => forall j :: 0 <= j < |s.callers| ==> Holds(s.callers[j]) == 0
            case Wait => Opened(s) && forall j :: 0 <= j < |s.callers| ==> Inside(s.callers[j]) == 0
            case Returned => false
            case _ => true
  {
    NobodyThere(s.callers, Holds);
    NobodyThere(s.callers, Inside);
    hide Total, Opened, CallerInv;
  }

  lemma NobodyThere(callers: seq<Caller>, w: Caller -> nat)
    ensures Total(callers, w) == 0 <==> forall j :: 0 <= j < |callers| ==> w(callers[j]) == 0
  {
    if Total(callers, w) > 0 {
      var i := TotalWitness(callers, w);
    } else {
      forall j | 0 <= j < |callers| ensures w(callers[j]) == 0 {
        TotalAtLeast(callers, j, w);
      }
    }
  }

  /** Enough callers come for the barrier to open. */
  predicate EnoughCallers(n: int, callers: nat) {
    1 <= n <= callers
  }

  /** What a state without an enabled step looks like: everybody has returned if
      enough callers came, and everybody is held at the turnstile otherwise. */
  predicate Settled(s: State) {
    && s.count == |s.callers|
    && s.mutex == 1
    && if EnoughCallers(s.n, |s.callers|)
       then s.turnstile == 1 && forall i :: 0 <= i < |s.callers| ==> s.callers[i] == Returned
       else s.turnstile == 0 && forall i :: 0 <= i < |s.callers| ==> s.callers[i] == Wait
  }

  lemma StuckMeansSettled(s: State)
    requires Inv(s) && !CanMove(s)
    ensures Settled(s)
  {
    if s.mutex == 0 {
      var h := TotalWitness(s.callers, Holds);
      assert Enabled(s, h);
    }
    forall i | 0 <= i < |s.callers|
      ensures s.callers[i] == Returned || (s.callers[i] == Wait && s.turnstile == 0)
    {
      assert !Enabled(s, i);
    }
    TotalConstant(s.callers, Counted, 1);
    TotalConstant(s.callers, Inside, 0);
  }

  /** Steps a caller may still take. */
  function Rank(c: Caller): nat {
    match c
    case Start => 8
    case Read => 7
    case Write(_) => 6
    case Test => 5
    case Open => 4
    case Release => 3
    case Wait => 2
    case Repost => 1
    case Returned => 0
  }

  lemma StepDecreases(s: State, i: nat)
    requires Enabled(s, i)
    ensures Total(Step(s, i).callers, Rank) < Total(s.callers, Rank)
  {
    var c := Step(s, i).callers[i];
    TotalUpdate(s.callers, i, c, Rank);
    assert Step(s, i).callers == s.callers[i := c];
  }

  /** Somebody moves, or nobody can and the state stays as it is. */
  ghost predicate Follows(s: State, i: nat, t: State) {
    || (Enabled(s, i) && t == Step(s, i))
    || (!CanMove(s) && t == s)
  }

  /** An infinite record of a run of `callers` threads under some scheduler. */
  ghost predicate IsRun(n: int, callers: nat, run: nat -> State, who: nat -> nat) {
    && run(0) == Initial(n, callers)
    && forall k: nat :: Follows(run(k), who(k), run(k + 1))
  }

  lemma {:induction false} RunInv(n: int, callers: nat, run: nat -> State, who: nat -> nat, k: nat)
    requires IsRun(n, callers, run, who)
    ensures Inv(run(k)) && run(k).n == n && |run(k).callers| == callers
    ensures CanMove(run(k)) ==> k + Total(run(k).callers, Rank) <= 8 * callers
  {
    if k == 0 {
      InitialInv(n, callers);
      TotalConstant(run(0).callers, Rank, 8);
    } else {
      RunInv(n, callers, run, who, k - 1);
      assert Follows(run(k - 1), who(k - 1), run(k));
      if CanMove(run(k - 1)) {
        hide Inv, Total, CanMove;
        StepInv(run(k - 1), who(k - 1));
        StepDecreases(run(k - 1), who(k - 1));
      }
    }
  }

  /** The barrier's promise, at every moment of every run: nobody gets past the
      turnstile before N callers have finished their increment, the opening post has
      then happened exactly once, and no increment is ever lost. */
  lemma Safety(n: int, callers: nat, run: nat -> State, who: nat -> nat, k: nat)
    requires IsRun(n, callers, run, who)
    ensures run(k).count == Total(run(k).callers, Counted)
    ensures forall i :: 0 <= i < |run(k).callers| && Passed(run(k).callers[i])
              ==> 1 <= n <= run(k).count && run(k).opens == 1
  {
    RunInv(n, callers, run, who, k);
  }

  /** The turnstile semaphore plus the callers between their wait and their second
      post is 0 before the opening and 1 after it; the mutex is binary. */
  lemma TurnstileBalance(n: int, callers: nat, run: nat -> State, who: nat -> nat, k: nat)
    requires IsRun(n, callers, run, who)
    ensures run(k).turnstile + Total(run(k).callers, Inside) == if Opened(run(k)) then 1 else 0
    ensures run(k).mutex + Total(run(k).callers, Holds) == 1
  {
    RunInv(n, callers, run, who, k);
  }

  /** Every run is over after at most eight steps per caller: the counter is exact,
      the mutex is free, and everybody has returned if and only if 1 <= N <= callers
      (or there is nobody to wait for). */
  lemma EveryRunSettles(n: int, callers: nat, run: nat -> State, who: nat -> nat, k: nat)
    requires IsRun(n, callers, run, who) && k >= 8 * callers
    ensures !CanMove(run(k)) && Settled(run(k)) && |run(k).callers| == callers
    ensures (forall i :: 0 <= i < callers ==> run(k).callers[i] == Returned)
            <==> callers == 0 || EnoughCallers(n, callers)
  {
    RunInv(n, callers, run, who, k);
    if CanMove(run(k)) {
      var i :| Enabled(run(k), i);
      TotalAtLeast(run(k).callers, i, Rank);
    }
    StuckMeansSettled(run(k));
    assert callers > 0 ==> run(k).callers[0] == run(k).callers[0];
  }

  lemma StepKeeps(s: State, i: nat)
    requires Enabled(s, i)
    ensures Step(s, i).n == s.n && |Step(s, i).callers| == |s.callers|
  {}

  lemma AllReturned(s: State)
    requires Inv(s) && s.callers != [] && forall i :: 0 <= i < |s.callers| ==> s.callers[i] == Returned
    ensures s.count == |s.callers| && s.mutex == 1 && s.turnstile == 1
  {
    TotalConstant(s.callers, Holds, 0);
    TotalConstant(s.callers, Counted, 1);
    TotalConstant(s.callers, Inside, 0);
    assert CallerInv(s, s.callers[0]);
  }

  /* ---------- the program's own state, updated in place ---------- */

  class SharedBarrier {
    var N: int
    var count: int
    var mutex: nat
    var barrier: nat
    var callers: seq<Caller>
    var opens: nat

    function View(): State
      reads this
    {
      State(N, count, mutex, barrier, callers, opens)
    }

    /** `barrier_init`, with `callers` threads about to call `barrier_wait`. */
    constructor (N: int, callers: nat)
      ensures View() == Initial(N, callers)
    {
      this.N, count := N, 0;
      mutex, barrier := 1, 0;
      this.callers := seq(callers, _ => Start);
      opens := 0;
    }

    /** Caller `i` performs its next action inside `barrier_wait`. */
    method Act(i: nat)
      requires Enabled(View(), i)
      modifies this
      ensures View() == Step(old(View()), i)
    {
      var next := Returned;
      match callers[i] {
        case Start =>
          mutex, next := mutex - 1, Read;
        case Read =>
          next := Write(count);
        case Write(loaded) =>
          count, next := loaded + 1, Test;
        case Test =>
          next := if count == N then Open else Release;
        case Open =>
          barrier, next := barrier + 1, Release;
          opens := opens + 1;
        case Release =>
          mutex, next := mutex + 1, Wait;
        case Wait =>
          barrier, next := barrier - 1, Repost;
        case Repost =>
          barrier := barrier + 1;
      }
      callers := callers[i := next];
    }

    /** All callers run to the end under an arbitrary scheduler. */
    method Run()
      requires View() == Initial(N, |callers|) && EnoughCallers(N, |callers|)
      modifies this
      ensures N == old(N) && |callers| == old(|callers|)
      ensures forall i :: 0 <= i < |callers| ==> callers[i] == Returned
      ensures count == |callers| && mutex == 1 && barrier == 1
    {
      hide Inv, Total, Step;
      InitialInv(N, |callers|);
      while exists i :: 0 <= i < |callers| && callers[i] != Returned
        invariant Inv(View()) && N == old(N) && |callers| == old(|callers|)
        decreases Total(callers, Rank)
      {
        if !CanMove(View()) {
          StuckMeansSettled(View());
        }
        var i :| 0 <= i < |callers| && Enabled(View(), i);
        StepInv(View(), i);
        StepDecreases(View(), i);
        StepKeeps(View(), i);
        Act(i);
      }
      AllReturned(View());
    }
  }
}
