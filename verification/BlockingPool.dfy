/** The pool behind a blocking actor: one queue under a mutex, one condition variable, any number of
    pool threads and of threads that post. Only the post that finds the queue empty signals, and it
    does so after it has released the mutex. */
module BlockingPool {
  import opened Wire

  type Future = nat

  /** A pool thread about to take the mutex, asleep on the condition, woken but not yet holding the
      mutex again, or running a lambda. */
  datatype Thread = Idle | Asleep | Woken | Running(f: Future)

  /** `owing` counts the threads between their unlock and their signal; the rest are histories. */
  datatype State = State(afs: seq<Future>, threads: seq<Thread>, owing: nat,
                         pushed: seq<Future>, started: seq<Future>, finished: multiset<Future>)

  /** `Signal` wakes one sleeping thread, if there is one; `Stir` is a wake-up nobody asked for. */
  datatype Action = Push(f: Future) | Signal(sleeper: Option<nat>) | Stir(t: nat) | Take(t: nat) | Finish(t: nat)

  function Init(n: nat): State { State([], seq(n, _ => Idle), 0, [], [], multiset{}) }

  predicate AllAsleep(ts: seq<Thread>) { forall i | 0 <= i < |ts| :: ts[i] == Asleep }

  predicate NoneAsleep(ts: seq<Thread>) { forall i | 0 <= i < |ts| :: ts[i] != Asleep }

  predicate Enabled(s: State, a: Action) {
    match a
    case Push(_) => true
    case Signal(None) => s.owing > 0 && NoneAsleep(s.threads)
    case Signal(Some(t)) => s.owing > 0 && t < |s.threads| && s.threads[t].Asleep?
    case Stir(t) => t < |s.threads| && s.threads[t].Asleep?
    case Take(t) => t < |s.threads| && (s.threads[t].Idle? || s.threads[t].Woken?)
    case Finish(t) => t < |s.threads| && s.threads[t].Running?
  }

  function Next(s: State, a: Action): State
    requires Enabled(s, a)
  {
    match a
    case Push(f) =>
      s.(afs := s.afs + [f], owing := if s.afs == [] then s.owing + 1 else s.owing, pushed := s.pushed + [f])
    case Signal(t) =>
      s.(owing := s.owing - 1, threads := if t.Some? then s.threads[t.value := Woken] else s.threads)
    case Stir(t) => s.(threads := s.threads[t := Woken])
    case Take(t) =>
      if s.afs == [] then s.(threads := s.threads[t := Asleep])
      else
        var f := s.afs[0];
        s.(afs := s.afs[1..], threads := s.threads[t := Running(f)], started := s.started + [f])
    case Finish(t) =>
      s.(threads := s.threads[t := Idle], finished := s.finished + multiset{s.threads[t].f})
  }

  function Run(s: State, acts: seq<Action>): Option<State>
    decreases |acts|
  {
    if acts == [] then Some(s)
    else if !Enabled(s, acts[0]) then None
    else Run(Next(s, acts[0]), acts[1..])
  }

  // ------------------------------------------------------------------ conservation

  function Hand(t: Thread): multiset<Future> {
    if t.Running? then multiset{t.f} else multiset{}
  }

  /** The lambdas being run. */
  function InHand(ts: seq<Thread>): multiset<Future> {
    if ts == [] then multiset{} else Hand(ts[0]) + InHand(ts[1..])
  }

  lemma {:induction false} InHandUpdate(ts: seq<Thread>, t: nat, x: Thread)
    requires t < |ts|
    ensures InHand(ts[t := x]) + Hand(ts[t]) == InHand(ts) + Hand(x)
  {
    if t == 0 {
      assert ts[t := x][1..] == ts[1..];
    } else {
      assert ts[t := x][1..] == ts[1..][t - 1 := x];
      InHandUpdate(ts[1..], t - 1, x);
      AddBoth(Hand(ts[0]), InHand(ts[1..][t - 1 := x]), Hand(ts[t]), InHand(ts[1..]), Hand(x));
    }
  }

  lemma AddBoth(a: multiset<Future>, i: multiset<Future>, b: multiset<Future>, j: multiset<Future>, x: multiset<Future>)
    requires i + b == j + x
    ensures a + i + b == a + j + x
  {
    assert a + i + b == a + (i + b);
    assert a + j + x == a + (j + x);
  }

  /** One thread's lambda is replaced by another. */
  lemma Exchange(started: multiset<Future>, before: multiset<Future>, after: multiset<Future>, fin: multiset<Future>,
                 gone: multiset<Future>, come: multiset<Future>)
    requires after + gone == before + come && started == before + fin
    ensures started + come == after + fin + gone
  {
    assert started + come == before + come + fin;
  }

  lemma {:induction false} InHandIdle(n: nat)
    ensures InHand(Init(n).threads) == multiset{}
  {
    if n > 0 {
      InHandIdle(n - 1);
      assert Init(n).threads[1..] == Init(n - 1).threads;
    }
  }

  /** Lambdas start once each in the order they were posted, and each is queued, being run or finished. */
  predicate Conserved(s: State) {
    && s.started + s.afs == s.pushed
    && multiset(s.started) == InHand(s.threads) + s.finished
  }

  lemma StepConserves(s: State, a: Action)
    requires Enabled(s, a) && Conserved(s)
    ensures Conserved(Next(s, a))
  {
    match a
    case Push(f) => assert s.started + (s.afs + [f]) == s.pushed + [f];
    case Signal(None) =>
    case Signal(Some(t)) => MoveConserves(s, t, Woken);
    case Stir(t) => MoveConserves(s, t, Woken);
    case Take(t) => if s.afs == [] { MoveConserves(s, t, Asleep); } else { TakeConserves(s, t); }
    case Finish(t) => FinishConserves(s, t);
  }

  lemma MoveConserves(s: State, t: nat, x: Thread)
    requires Conserved(s) && t < |s.threads| && !s.threads[t].Running? && !x.Running?
    ensures Conserved(s.(threads := s.threads[t := x]))
  {
    InHandUpdate(s.threads, t, x);
    assert InHand(s.threads[t := x]) + multiset{} == InHand(s.threads[t := x]);
  }

  lemma TakeConserves(s: State, t: nat)
    requires Enabled(s, Take(t)) && Conserved(s) && s.afs != []
    ensures Conserved(Next(s, Take(t)))
  {
    var f := s.afs[0];
    var ts := s.threads[t := Running(f)];
    InHandUpdate(s.threads, t, Running(f));
    Exchange(multiset(s.started), InHand(s.threads), InHand(ts), s.finished, multiset{}, multiset{f});
    assert InHand(ts) + s.finished + multiset{} == InHand(ts) + s.finished;
    assert s.started + [f] + s.afs[1..] == s.started + s.afs;
  }

  lemma FinishConserves(s: State, t: nat)
    requires Enabled(s, Finish(t)) && Conserved(s)
    ensures Conserved(Next(s, Finish(t)))
  {
    var f := s.threads[t].f;
    var ts := s.threads[t := Idle];
    InHandUpdate(s.threads, t, Idle);
    Exchange(multiset(s.started), InHand(s.threads), InHand(ts), s.finished, multiset{f}, multiset{});
    assert multiset(s.started) + multiset{} == multiset(s.started);
    assert InHand(ts) + s.finished + multiset{f} == InHand(ts) + (s.finished + multiset{f});
  }

  lemma {:induction false} RunConserves(s: State, acts: seq<Action>)
    requires Conserved(s) && Run(s, acts).Some?
    ensures Conserved(Run(s, acts).value)
    decreases |acts|
  {
    if acts != [] {
      StepConserves(s, acts[0]);
      RunConserves(Next(s, acts[0]), acts[1..]);
    }
  }

  lemma PoolConserves(n: nat, acts: seq<Action>)
    requires Run(Init(n), acts).Some?
    ensures Conserved(Run(Init(n), acts).value)
  {
    InHandIdle(n);
    RunConserves(Init(n), acts);
  }

  lemma RunCons(s: State, a: Action, rest: seq<Action>)
    requires Enabled(s, a)
    ensures Run(s, [a] + rest) == Run(Next(s, a), rest)
  {
    assert ([a] + rest)[1..] == rest;
  }

  // ------------------------------------------------------------------ no stall

  /** With lambdas queued, some thread is not asleep or some signal is still owed. */
  predicate NoStall(s: State) {
    s.afs != [] && AllAsleep(s.threads) ==> s.owing > 0
  }

  lemma {:induction false} RunNeverStalls(s: State, acts: seq<Action>)
    requires |s.threads| >= 1 && NoStall(s) && Run(s, acts).Some?
    ensures NoStall(Run(s, acts).value) && |Run(s, acts).value.threads| == |s.threads|
    decreases |acts|
  {
    if acts != [] {
      var s' := Next(s, acts[0]);
      if acts[0].Signal? { assert NoneAsleep(s.threads) ==> s.threads[0] != Asleep; }
      if !acts[0].Push? && s'.threads != s.threads {
        var t := if acts[0].Signal? then acts[0].sleeper.value else acts[0].t;
        assert s'.threads[t] == Asleep ==> s'.afs == [];
      }
      RunNeverStalls(s', acts[1..]);
    }
  }

  /** Although a post to a non-empty queue never signals, no reachable state of a pool stalls: exactly
      when the pool has a thread at all. */
  lemma NeverStallsExactly(n: nat)
    ensures n >= 1 <==> forall acts | Run(Init(n), acts).Some? :: NoStall(Run(Init(n), acts).value)
  {
    if n >= 1 {
      forall acts | Run(Init(n), acts).Some? ensures NoStall(Run(Init(n), acts).value) {
        RunNeverStalls(Init(n), acts);
      }
    } else {
      var acts := [Push(0)] + ([Signal(None)] + []);
      var s := Next(Init(0), Push(0));
      RunCons(Init(0), Push(0), [Signal(None)] + []);
      RunCons(s, Signal(None), []);
      assert Run(Init(0), acts) == Some(Next(s, Signal(None)));
    }
  }

  // ------------------------------------------------------------------ idle threads beside queued work

  /** With lambdas queued and a thread asleep, another thread is up for work or a signal is owed. */
  predicate Busy(s: State) {
    s.afs != [] && !NoneAsleep(s.threads) ==>
      s.owing > 0 || exists t :: 0 <= t < |s.threads| && (s.threads[t].Idle? || s.threads[t].Woken?)
  }

  lemma {:induction false} RunAppend(s: State, a: seq<Action>, b: seq<Action>)
    requires Run(s, a).Some?
    ensures Run(s, a + b) == Run(Run(s, a).value, b)
    decreases |a|
  {
    if a == [] {
      assert a + b == b;
    } else {
      assert (a + b)[1..] == a[1..] + b;
      RunAppend(Next(s, a[0]), a[1..], b);
    }
  }

  /** The first `k` of `n` threads find the queue empty and go to sleep. */
  function Nap(n: nat, k: nat): seq<Thread>
    requires k <= n
  {
    seq(n, i => if i < k then Asleep else Idle)
  }

  lemma {:induction false} AllNap(n: nat, k: nat) returns (acts: seq<Action>)
    requires k <= n
    ensures Run(Init(n), acts) == Some(Init(n).(threads := Nap(n, k)))
  {
    if k == 0 {
      acts := [];
      assert Init(n).threads == Nap(n, 0);
    } else {
      var before := AllNap(n, k - 1);
      acts := before + [Take(k - 1)];
      RunAppend(Init(n), before, [Take(k - 1)]);
      var s := Init(n).(threads := Nap(n, k - 1));
      assert Nap(n, k - 1)[k - 1 := Asleep] == Nap(n, k);
      assert Run(s, [Take(k - 1)]) == Run(Next(s, Take(k - 1)), [Take(k - 1)][1..]);
    }
  }

  /** Two posts in a row before anyone wakes: one thread gets up for the first lambda and the second
      lambda waits behind it while the other threads sleep on. */
  lemma SleepsBesideWork(n: nat) returns (acts: seq<Action>)
    requires n >= 2
    ensures Run(Init(n), acts).Some? && !Busy(Run(Init(n), acts).value)
  {
    var nap := AllNap(n, n);
    var s0 := Init(n).(threads := Nap(n, n));
    var tail := [Push(0)] + ([Push(1)] + ([Signal(Some(0))] + ([Take(0)] + [])));
    acts := nap + tail;
    RunAppend(Init(n), nap, tail);
    var s1 := Next(s0, Push(0));
    var s2 := Next(s1, Push(1));
    var s3 := Next(s2, Signal(Some(0)));
    var s4 := Next(s3, Take(0));
    RunCons(s0, Push(0), [Push(1)] + ([Signal(Some(0))] + ([Take(0)] + [])));
    RunCons(s1, Push(1), [Signal(Some(0))] + ([Take(0)] + []));
    RunCons(s2, Signal(Some(0)), [Take(0)] + []);
    RunCons(s3, Take(0), []);
    assert s4.afs == [1] && s4.owing == 0 && s4.threads[1] == Asleep;
  }

  /** A sleeping thread beside queued work that nobody will wake for: possible exactly in a pool of two
      or more. */
  lemma BusyExactly(n: nat)
    ensures n <= 1 <==> forall acts | Run(Init(n), acts).Some? :: Busy(Run(Init(n), acts).value)
  {
    if n <= 1 {
      forall acts | Run(Init(n), acts).Some? ensures Busy(Run(Init(n), acts).value) {
        if n == 1 { RunNeverStalls(Init(n), acts); } else { RunKeepsNone(Init(n), acts); }
      }
    } else {
      var acts := SleepsBesideWork(n);
    }
  }

  lemma {:induction false} RunKeepsNone(s: State, acts: seq<Action>)
    requires s.threads == [] && Run(s, acts).Some?
    ensures Run(s, acts).value.threads == []
    decreases |acts|
  {
    if acts != [] { RunKeepsNone(Next(s, acts[0]), acts[1..]); }
  }
}
