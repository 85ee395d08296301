/** The worker threads: lambdas queued under a spin lock, an eventfd to wake the owner, and an
    edge-triggered poll. Any number of threads post at the same time; queuing a lambda and writing
    the eventfd are separate steps. */
module Scheduler {
  import opened Wire

  /** A lambda of an actor that belongs to worker `owner`. */
  datatype Future = Future(id: nat, owner: nat)

  /** Where the loop of a worker stands: not yet polling the eventfd, in the poll, handling a batch of
      events (`itc`: the eventfd's is among them), looking for the next lambda, or running one. */
  datatype Pc = Off | Waiting | Batch(itc: bool, others: nat) | Picking | Running(f: Future)

  /** `count` is the counter of the eventfd, `edge` an event of it not yet reported, `owing` the number
      of threads between their unlock and their write. The log keeps all lambdas
      queued here, dequeued here, and run by this thread. */
  datatype Worker = Worker(afs: seq<Future>, count: nat, edge: bool, owing: nat, pc: Pc,
                           log: History)
  datatype History = History(pushed: seq<Future>, taken: seq<Future>, ran: seq<Future>)

  type State = seq<Worker>

  const NEW_WORKER := Worker([], 0, false, 0, Off, History([], [], []))

  function Init(n: nat): State { seq(n, _ => NEW_WORKER) }

  /** A step of worker `w`'s loop, or a thread's write to its eventfd. */
  datatype Local =
    | Write
    | Register
    | Wake(itc: bool, others: nat)
    | Drop
    | Read
    | Serve
    | EndBatch
    | Pick
    | Finish

  /** `Post` is `future` called by worker `thread`, or by a thread that is no worker. */
  datatype Action = Post(thread: Option<nat>, f: Future) | At(w: nat, step: Local)

  predicate LocalEnabled(w: Worker, a: Local) {
    match a
    case Write => w.owing > 0
    case Register => w.pc.Off?
    case Wake(itc, others) => w.pc.Waiting? && (itc || others > 0) && (itc ==> w.edge && w.count > 0)
    case Drop => w.pc.Waiting? && w.edge && w.count == 0
    case Read => w.pc.Batch? && w.pc.itc
    case Serve => w.pc.Batch? && w.pc.others > 0
    case EndBatch => w.pc == Batch(false, 0)
    case Pick => w.pc.Picking?
    case Finish => w.pc.Running?
  }

  function LocalNext(w: Worker, a: Local): Worker
    requires LocalEnabled(w, a)
  {
    match a
    case Write => w.(owing := w.owing - 1, count := w.count + 1, edge := w.edge || !w.pc.Off?)
    case Register => w.(pc := Waiting, edge := w.count > 0)
    case Wake(itc, others) => w.(pc := Batch(itc, others), edge := w.edge && !itc)
    case Drop => w.(edge := false)
    case Read => if w.count > 0 then w.(count := 0) else w.(pc := Batch(false, w.pc.others))
    case Serve => w.(pc := Batch(w.pc.itc, w.pc.others - 1))
    case EndBatch => w.(pc := Picking)
    case Pick =>
      if w.afs == [] then w.(pc := Waiting)
      else
        var f := w.afs[0];
        w.(afs := w.afs[1..], pc := Running(f),
           log := w.log.(taken := w.log.taken + [f], ran := w.log.ran + [f]))
    case Finish => w.(pc := Picking)
  }

  /** A lambda is run in place by the worker that owns it, and otherwise queued. */
  function Inline(w: Worker, f: Future): Worker {
    w.(log := w.log.(ran := w.log.ran + [f]))
  }

  function Push(w: Worker, f: Future): Worker {
    w.(afs := w.afs + [f], owing := w.owing + 1, log := w.log.(pushed := w.log.pushed + [f]))
  }

  predicate InCallback(w: Worker) { w.pc.Batch? || w.pc.Running? }

  predicate Enabled(s: State, a: Action) {
    match a
    case Post(thread, f) => f.owner < |s| && (thread.Some? ==> thread.value < |s| && InCallback(s[thread.value]))
    case At(w, step) => w < |s| && LocalEnabled(s[w], step)
  }

  function Next(s: State, a: Action): State
    requires Enabled(s, a)
  {
    match a
    case Post(thread, f) =>
      if thread == Some(f.owner) then s[thread.value := Inline(s[thread.value], f)]
      else s[f.owner := Push(s[f.owner], f)]
    case At(w, step) => s[w := LocalNext(s[w], step)]
  }

  /** The state after a sequence of steps, if they are possible in that order. */
  function Run(s: State, acts: seq<Action>): Option<State>
    decreases |acts|
  {
    if acts == [] then Some(s)
    else if !Enabled(s, acts[0]) then None
    else Run(Next(s, acts[0]), acts[1..])
  }

  /** A lambda posted by the thread of its owner is run by it at once, and nothing else changes. */
  lemma PostedHere(s: State, f: Future)
    requires Enabled(s, Post(Some(f.owner), f))
    ensures var w, w' := s[f.owner], Next(s, Post(Some(f.owner), f))[f.owner];
      w'.log.ran == w.log.ran + [f] && w'.(log := w.log) == w && w'.log.(ran := w.log.ran) == w.log
    ensures forall i | 0 <= i < |s| && i != f.owner :: Next(s, Post(Some(f.owner), f))[i] == s[i]
  {
  }

  /** One posted by any other thread, a worker's or not, is run by nobody: it goes to the end of the queue
      of its owner, to whose eventfd a write is owed. */
  lemma PostedElsewhere(s: State, thread: Option<nat>, f: Future)
    requires Enabled(s, Post(thread, f)) && thread != Some(f.owner)
    ensures var w, w' := s[f.owner], Next(s, Post(thread, f))[f.owner];
      && w'.log.ran == w.log.ran && w'.afs == w.afs + [f] && w'.owing == w.owing + 1
      && w'.pc == w.pc && w'.count == w.count && w'.edge == w.edge
    ensures forall i | 0 <= i < |s| && i != f.owner :: Next(s, Post(thread, f))[i] == s[i]
  {
  }

  // ------------------------------------------------------------------ safety

  /** A worker in the poll with lambdas queued will be woken: an event with a positive counter is on
      its way, or a thread still owes its write. */
  predicate NotAsleepOnWork(w: Worker) {
    w.pc.Waiting? && w.afs != [] ==> (w.edge && w.count > 0) || w.owing > 0
  }

  /** Lambdas leave the queue once each and in the order they were queued. */
  predicate InOrder(w: Worker) {
    w.log.taken + w.afs == w.log.pushed
  }

  predicate OwnedBy(fs: seq<Future>, i: nat) {
    forall k | 0 <= k < |fs| :: fs[k].owner == i
  }

  predicate WorkerInv(w: Worker, i: nat) {
    && NotAsleepOnWork(w) && InOrder(w)
    && OwnedBy(w.afs, i) && OwnedBy(w.log.ran, i)
    && (w.pc.Off? && w.afs != [] ==> w.count > 0 || w.owing > 0)
    && (w.pc.Running? ==> w.pc.f.owner == i)
  }

  predicate Inv(s: State) {
    forall i | 0 <= i < |s| :: WorkerInv(s[i], i)
  }

  lemma LocalKeeps(w: Worker, i: nat, a: Local)
    requires WorkerInv(w, i) && LocalEnabled(w, a)
    ensures WorkerInv(LocalNext(w, a), i)
  {
    if a.Pick? && w.afs != [] {
      assert w.log.taken + [w.afs[0]] + w.afs[1..] == w.log.taken + w.afs;
    }
  }

  lemma PostKeeps(w: Worker, f: Future)
    requires WorkerInv(w, f.owner)
    ensures WorkerInv(Push(w, f), f.owner) && WorkerInv(Inline(w, f), f.owner)
  {
    assert w.log.taken + (w.afs + [f]) == w.log.taken + w.afs + [f];
    OwnedSnoc(w.afs, f);
    OwnedSnoc(w.log.ran, f);
  }

  lemma OwnedSnoc(fs: seq<Future>, f: Future)
    requires OwnedBy(fs, f.owner)
    ensures OwnedBy(fs + [f], f.owner)
  {
  }

  lemma StepKeeps(s: State, a: Action)
    requires Inv(s) && Enabled(s, a)
    ensures Inv(Next(s, a))
  {
    var i := if a.Post? then a.f.owner else a.w;
    assert WorkerInv(s[i], i);
    if a.Post? { PostKeeps(s[i], a.f); } else { LocalKeeps(s[i], i, a.step); }
  }

  lemma {:induction false} RunKeeps(s: State, acts: seq<Action>)
    requires Inv(s) && Run(s, acts).Some?
    ensures Inv(Run(s, acts).value) && |Run(s, acts).value| == |s|
    decreases |acts|
  {
    if acts != [] {
      StepKeeps(s, acts[0]);
      RunKeeps(Next(s, acts[0]), acts[1..]);
    }
  }

  function Reached(n: nat, acts: seq<Action>): (s: State)
    requires Run(Init(n), acts).Some?
    ensures |s| == n
  {
    RunKeeps(Init(n), acts);
    Run(Init(n), acts).value
  }

  // ------------------------------------------------------------------ nothing lost, nothing twice

  /** The lambdas posted to actors of worker `i`, by whatever thread. */
  function PostedTo(acts: seq<Action>, i: nat): seq<Future> {
    if acts == [] then []
    else (if acts[0].Post? && acts[0].f.owner == i then [acts[0].f] else []) + PostedTo(acts[1..], i)
  }

  /** The lambdas of a worker: those it has run, and those still queued. */
  function Known(w: Worker): multiset<Future> { multiset(w.log.ran) + multiset(w.afs) }

  lemma LocalConserves(w: Worker, a: Local)
    requires LocalEnabled(w, a)
    ensures Known(LocalNext(w, a)) == Known(w)
  {
    if a.Pick? && w.afs != [] { assert w.afs == [w.afs[0]] + w.afs[1..]; }
  }

  lemma PostConserves(w: Worker, f: Future)
    ensures Known(Push(w, f)) == Known(w) + multiset{f}
    ensures Known(Inline(w, f)) == Known(w) + multiset{f}
  {
  }

  lemma StepConserves(s: State, a: Action, i: nat)
    requires i < |s| && Enabled(s, a)
    ensures Known(Next(s, a)[i]) == Known(s[i]) + if a.Post? && a.f.owner == i then multiset{a.f} else multiset{}
  {
    if a.Post? {
      if a.f.owner == i { PostConserves(s[i], a.f); }
    } else if a.w == i {
      LocalConserves(s[i], a.step);
    }
  }

  lemma PostedFirst(acts: seq<Action>, i: nat)
    requires acts != []
    ensures multiset(PostedTo(acts, i))
         == (if acts[0].Post? && acts[0].f.owner == i then multiset{acts[0].f} else multiset{})
            + multiset(PostedTo(acts[1..], i))
  {
  }

  lemma {:induction false} RunConserves(s: State, acts: seq<Action>, i: nat)
    requires i < |s| && Run(s, acts).Some? && |Run(s, acts).value| == |s|
    ensures Known(Run(s, acts).value[i]) == Known(s[i]) + multiset(PostedTo(acts, i))
    decreases |acts|
  {
    if acts != [] {
      StepConserves(s, acts[0], i);
      RunConserves(Next(s, acts[0]), acts[1..], i);
      PostedFirst(acts, i);
    }
  }

  predicate NoRepeats(fs: seq<Future>) { forall j, k | 0 <= j < k < |fs| :: fs[j] != fs[k] }

  lemma {:induction false} NoRepeatsCounts(fs: seq<Future>, f: Future)
    requires NoRepeats(fs)
    ensures multiset(fs)[f] <= 1
    decreases |fs|
  {
    if fs != [] {
      var front, last := fs[..|fs| - 1], fs[|fs| - 1];
      NoRepeatsCounts(front, f);
      assert fs == front + [last];
      assert last !in front by {
        forall j | 0 <= j < |front| ensures front[j] != last { assert fs[j] == front[j]; }
      }
    }
  }

  lemma RepeatCounts(fs: seq<Future>, j: nat, k: nat)
    requires j < k < |fs| && fs[j] == fs[k]
    ensures multiset(fs)[fs[j]] >= 2
  {
    assert fs == fs[..k] + fs[k..];
    assert fs[..k][j] == fs[j] && fs[k..][0] == fs[j];
    assert multiset(fs[..k])[fs[j]] >= 1 && multiset(fs[k..])[fs[j]] >= 1;
  }

  /** What is among distinct lambdas is distinct. */
  lemma NoRepeatsAmong(ran: seq<Future>, rest: seq<Future>, posted: seq<Future>)
    requires multiset(ran) + multiset(rest) == multiset(posted) && NoRepeats(posted)
    ensures NoRepeats(ran)
  {
    forall j, k | 0 <= j < k < |ran| ensures ran[j] != ran[k] {
      if ran[j] == ran[k] {
        assert multiset(posted)[ran[j]] == multiset(ran)[ran[j]] + multiset(rest)[ran[j]];
        NoRepeatsCounts(posted, ran[j]);
        RepeatCounts(ran, j, k);
      }
    }
  }

  /** In every reachable state of any number of workers: no worker sleeps on queued work, lambdas leave
      its queue once each in the order they were queued, its thread has run only lambdas of its own actors,
      and what it has run and what it has queued are together exactly what was posted to those actors. So no
      lambda runs twice unless it was posted twice. */
  lemma SchedulerSafety(n: nat, acts: seq<Action>, i: nat)
    requires Run(Init(n), acts).Some? && i < n
    ensures var w := Reached(n, acts)[i];
      && NotAsleepOnWork(w) && InOrder(w) && OwnedBy(w.log.ran, i)
      && multiset(w.log.ran) + multiset(w.afs) == multiset(PostedTo(acts, i))
      && (NoRepeats(PostedTo(acts, i)) ==> NoRepeats(w.log.ran))
  {
    RunKeeps(Init(n), acts);
    var w := Reached(n, acts)[i];
    assert WorkerInv(w, i);
    RunConserves(Init(n), acts, i);
    assert w.afs == Reached(n, acts)[i].afs && Known(Init(n)[i]) == multiset{};
    if NoRepeats(PostedTo(acts, i)) { NoRepeatsAmong(w.log.ran, w.afs, PostedTo(acts, i)); }
  }

  // ------------------------------------------------------------------ progress

  /** How far a worker is from taking the next lambda, for lexicographic comparison. */
  function Distance(w: Worker): (nat, nat) {
    match w.pc
    case Off => (2, 0)
    case Waiting => (1, 0)
    case Batch(itc, others) => (0, 2 + others + if !itc then 0 else if w.count > 0 then 2 else 1)
    case Running(_) => (0, 1)
    case Picking => (0, 0)
  }

  predicate Closer(a: (nat, nat), b: (nat, nat)) {
    a.0 < b.0 || (a.0 == b.0 && a.1 < b.1)
  }

  function NextStep(w: Worker): (a: Local)
    requires w.pc.Waiting? ==> w.edge && w.count > 0
    ensures LocalEnabled(w, a) && !a.Write?
  {
    match w.pc
    case Off => Register
    case Waiting => Wake(true, 0)
    case Batch(itc, others) => if itc then Read else if others > 0 then Serve else EndBatch
    case Picking => Pick
    case Running(_) => Finish
  }

  /** With lambdas queued and all writes made, the loop is never stuck, and whatever step it takes next
      brings it closer to taking the lambda at the front, or takes it. */
  lemma LoopProgress(n: nat, acts: seq<Action>, i: nat, a: Local)
    requires Run(Init(n), acts).Some? && i < n
    requires Reached(n, acts)[i].afs != [] && Reached(n, acts)[i].owing == 0
    ensures var w := Reached(n, acts)[i];
      && (w.pc.Waiting? ==> w.edge && w.count > 0)
      && LocalEnabled(w, NextStep(w))
      && (LocalEnabled(w, a) ==>
            var w' := LocalNext(w, a);
            if a.Pick? then w'.pc == Running(w.afs[0]) && w'.afs == w.afs[1..]
            else w'.afs == w.afs && Closer(Distance(w'), Distance(w)))
  {
    SchedulerSafety(n, acts, i);
  }

  /** How far a worker without lambdas is from the poll. */
  function ToRest(w: Worker): nat {
    match w.pc
    case Waiting => 0
    case Off => 1
    case Picking => 1
    case Running(_) => 2
    case Batch(itc, others) => 2 + others + if !itc then 0 else if w.count > 0 then 2 else 1
  }

  /** With no lambda queued and none coming, the loop goes back to sleep: whatever step it takes brings it
      closer to the poll, and it can always take one until it is there. */
  lemma LoopRests(w: Worker, a: Local)
    requires w.afs == [] && !w.pc.Waiting?
    ensures LocalEnabled(w, NextStep(w))
    ensures LocalEnabled(w, a) && !a.Write? ==>
              LocalNext(w, a).afs == [] && LocalNext(w, a).log == w.log && ToRest(LocalNext(w, a)) < ToRest(w)
  {
  }
}
