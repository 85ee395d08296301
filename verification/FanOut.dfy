/** One published message: a lambda per worker shares four heap objects (root, path, counter and
    message), and the lambda that counts last frees them. */
module FanOut {
  import opened Wire

  /** Where the lambda of a worker stands: not posted yet, posted and free to read the shared objects,
      or counted; the last one then frees object after object. */
  datatype Pc = Absent | Reading | Freeing(next: nat) | Done

  const OBJECTS: nat := 4
  const COUNTER: nat := 2

  /** `posted` is the publisher's loop variable and `me` its own worker index, or any number that is
      none. `deletes` counts the deletions of each object; `stale` records a use of a deleted one. */
  datatype State = State(posted: nat, me: nat, pcs: seq<Pc>, counter: nat, deletes: seq<nat>, stale: bool)

  /** `Read` is any look of lambda `w` at a shared object; `Count` its atomic add-and-fetch. */
  datatype Action = Post | Read(w: nat, item: nat) | Count(w: nat) | Delete(w: nat)

  function Init(n: nat, me: nat): State {
    State(0, me, seq(n, _ => Absent), 0, seq(OBJECTS, _ => 0), false)
  }

  /** On its own worker the publisher runs the lambda to its end before it posts the next one. */
  predicate Enabled(s: State, a: Action) {
    match a
    case Post =>
      && s.posted < |s.pcs| && s.pcs[s.posted].Absent?
      && (s.me < s.posted && s.me < |s.pcs| ==> s.pcs[s.me].Done?)
    case Read(w, item) => w < |s.pcs| && s.pcs[w].Reading? && item < |s.deletes|
    case Count(w) => w < |s.pcs| && s.pcs[w].Reading?
    case Delete(w) => w < |s.pcs| && s.pcs[w].Freeing? && s.pcs[w].next < |s.deletes|
  }

  function Use(s: State, item: nat): State
    requires item < |s.deletes|
  {
    s.(stale := s.stale || s.deletes[item] > 0)
  }

  function Next(s: State, a: Action): State
    requires Enabled(s, a) && |s.deletes| == OBJECTS
  {
    match a
    case Post => s.(pcs := s.pcs[s.posted := Reading], posted := s.posted + 1)
    case Read(w, item) => Use(s, item)
    case Count(w) =>
      var s' := Use(s, COUNTER).(counter := s.counter + 1);
      s'.(pcs := s.pcs[w := if s'.counter == |s.pcs| then Freeing(0) else Done])
    case Delete(w) =>
      var k := s.pcs[w].next;
      s.(deletes := s.deletes[k := s.deletes[k] + 1],
         pcs := s.pcs[w := if k + 1 == OBJECTS then Done else Freeing(k + 1)])
  }

  function Run(s: State, acts: seq<Action>): Option<State>
    requires |s.deletes| == OBJECTS
    decreases |acts|
  {
    if acts == [] then Some(s)
    else if !Enabled(s, acts[0]) then None
    else Run(Next(s, acts[0]), acts[1..])
  }

  // ------------------------------------------------------------------ counting

  predicate Counted(pc: Pc) { pc.Freeing? || pc.Done? }

  function CountedIn(pcs: seq<Pc>): nat {
    if pcs == [] then 0 else (if Counted(pcs[0]) then 1 else 0) + CountedIn(pcs[1..])
  }

  lemma {:induction false} CountedUpdate(pcs: seq<Pc>, w: nat, pc: Pc)
    requires w < |pcs|
    ensures CountedIn(pcs[w := pc]) + (if Counted(pcs[w]) then 1 else 0)
         == CountedIn(pcs) + (if Counted(pc) then 1 else 0)
    decreases |pcs|
  {
    if w == 0 {
      assert pcs[w := pc][1..] == pcs[1..];
    } else {
      assert pcs[w := pc][1..] == pcs[1..][w - 1 := pc];
      CountedUpdate(pcs[1..], w - 1, pc);
    }
  }

  predicate AllCounted(pcs: seq<Pc>) { forall w | 0 <= w < |pcs| :: Counted(pcs[w]) }

  lemma {:induction false} CountedBound(pcs: seq<Pc>)
    ensures CountedIn(pcs) <= |pcs|
    ensures CountedIn(pcs) == |pcs| <==> AllCounted(pcs)
    decreases |pcs|
  {
    if pcs != [] {
      CountedBound(pcs[1..]);
      assert forall w | 0 < w < |pcs| :: pcs[w] == pcs[1..][w - 1];
      assert AllCounted(pcs) ==> AllCounted(pcs[1..]);
    }
  }

  lemma {:induction false} NoneCounted(n: nat)
    ensures CountedIn(seq(n, _ => Absent)) == 0
  {
    if n > 0 {
      assert seq(n, _ => Absent)[1..] == seq(n - 1, _ => Absent);
      NoneCounted(n - 1);
    }
  }

  // ------------------------------------------------------------------ the shared objects

  /** Before the last count nothing is deleted; then one lambda deletes the objects in order, and when
      it is through each has been deleted once. */
  ghost predicate Inv(s: State) {
    && |s.deletes| == OBJECTS && s.posted <= |s.pcs| && !s.stale
    && s.counter == CountedIn(s.pcs)
    && (forall w | s.posted <= w < |s.pcs| :: s.pcs[w].Absent?)
    && (forall w | 0 <= w < s.posted :: !s.pcs[w].Absent?)
    && (forall w | 0 <= w < |s.pcs| && s.pcs[w].Freeing? :: s.counter == |s.pcs| && s.pcs[w].next < OBJECTS)
    && (forall v, w | 0 <= v < w < |s.pcs| :: !(s.pcs[v].Freeing? && s.pcs[w].Freeing?))
    && (forall w, k | 0 <= w < |s.pcs| && s.pcs[w].Freeing? && 0 <= k < OBJECTS ::
          s.deletes[k] == if k < s.pcs[w].next then 1 else 0)
    && (s.counter < |s.pcs| ==> forall k | 0 <= k < OBJECTS :: s.deletes[k] == 0)
    && (s.counter == |s.pcs| > 0 && NoneFreeing(s) ==> forall k | 0 <= k < OBJECTS :: s.deletes[k] == 1)
  }

  predicate NoneFreeing(s: State) { forall w | 0 <= w < |s.pcs| :: !s.pcs[w].Freeing? }

  lemma PostKeeps(s: State)
    requires Inv(s) && Enabled(s, Post)
    ensures Inv(Next(s, Post))
  {
    CountedUpdate(s.pcs, s.posted, Reading);
    CountedBound(s.pcs);
    assert !Counted(s.pcs[s.posted]);
  }

  lemma CountKeeps(s: State, w: nat)
    requires Inv(s) && Enabled(s, Count(w))
    ensures Inv(Next(s, Count(w)))
  {
    var s' := Next(s, Count(w));
    CountedBound(s.pcs);
    assert !Counted(s.pcs[w]);
    CountedUpdate(s.pcs, w, s'.pcs[w]);
    CountedBound(s'.pcs);
    if s'.counter == |s.pcs| { assert s'.pcs[w].Freeing?; }
  }

  lemma DeleteKeeps(s: State, w: nat)
    requires Inv(s) && Enabled(s, Delete(w))
    ensures Inv(Next(s, Delete(w)))
  {
    var s' := Next(s, Delete(w));
    CountedUpdate(s.pcs, w, s'.pcs[w]);
    assert forall v | 0 <= v < |s.pcs| && v != w :: !s.pcs[v].Freeing? && s'.pcs[v] == s.pcs[v];
  }

  lemma ReadKeeps(s: State, w: nat, item: nat)
    requires Inv(s) && Enabled(s, Read(w, item))
    ensures Inv(Next(s, Read(w, item)))
  {
    CountedBound(s.pcs);
    assert !Counted(s.pcs[w]);
    assert s.deletes[item] == 0;
  }

  lemma StepKeeps(s: State, a: Action)
    requires Inv(s) && Enabled(s, a)
    ensures Inv(Next(s, a)) && |Next(s, a).pcs| == |s.pcs|
  {
    match a
    case Post => PostKeeps(s);
    case Read(w, item) => ReadKeeps(s, w, item);
    case Count(w) => CountKeeps(s, w);
    case Delete(w) => DeleteKeeps(s, w);
  }

  lemma {:induction false} RunKeeps(s: State, acts: seq<Action>)
    requires Inv(s) && Run(s, acts).Some?
    ensures Inv(Run(s, acts).value) && |Run(s, acts).value.pcs| == |s.pcs|
    decreases |acts|
  {
    if acts != [] {
      StepKeeps(s, acts[0]);
      RunKeeps(Next(s, acts[0]), acts[1..]);
    }
  }

  function Reached(n: nat, me: nat, acts: seq<Action>): (s: State)
    requires Run(Init(n, me), acts).Some?
    ensures |s.pcs| == n && |s.deletes| == OBJECTS
  {
    NoneCounted(n);
    RunKeeps(Init(n, me), acts);
    Run(Init(n, me), acts).value
  }

  /** Over all interleavings: no shared object is used or deleted after it was deleted, nothing is
      deleted while a lambda is still to come or has not counted, at most one lambda deletes, and when
      all are through every object has been deleted exactly once. */
  lemma FreedOnceAndLast(n: nat, me: nat, acts: seq<Action>)
    requires n >= 1 && Run(Init(n, me), acts).Some?
    ensures var s := Reached(n, me, acts);
      && !s.stale
      && (forall k | 0 <= k < OBJECTS :: s.deletes[k] <= 1)
      && ((exists k :: 0 <= k < OBJECTS && s.deletes[k] > 0) ==> forall w | 0 <= w < n :: Counted(s.pcs[w]))
      && (forall v, w | 0 <= v < w < n :: !(s.pcs[v].Freeing? && s.pcs[w].Freeing?))
      && ((forall w | 0 <= w < n :: s.pcs[w].Done?) ==> forall k | 0 <= k < OBJECTS :: s.deletes[k] == 1)
  {
    NoneCounted(n);
    RunKeeps(Init(n, me), acts);
    var s := Run(Init(n, me), acts).value;
    CountedBound(s.pcs);
    if !NoneFreeing(s) {
      var w :| 0 <= w < n && s.pcs[w].Freeing?;
    }
  }

  // ------------------------------------------------------------------ it ends

  function Left(pc: Pc): nat {
    match pc
    case Absent => OBJECTS + 2
    case Reading => OBJECTS + 1
    case Freeing(k) => if k < OBJECTS then OBJECTS - k else 0
    case Done => 0
  }

  function Work(pcs: seq<Pc>): nat {
    if pcs == [] then 0 else Left(pcs[0]) + Work(pcs[1..])
  }

  lemma {:induction false} WorkUpdate(pcs: seq<Pc>, w: nat, pc: Pc)
    requires w < |pcs|
    ensures Work(pcs[w := pc]) + Left(pcs[w]) == Work(pcs) + Left(pc)
    decreases |pcs|
  {
    if w == 0 {
      assert pcs[w := pc][1..] == pcs[1..];
    } else {
      assert pcs[w := pc][1..] == pcs[1..][w - 1 := pc];
      WorkUpdate(pcs[1..], w - 1, pc);
    }
  }

  /** Until every lambda is through some step other than a look is possible, and each such step uses up
      some of the work, so the publication always ends with everything freed. */
  lemma FanOutEnds(n: nat, me: nat, acts: seq<Action>) returns (a: Action)
    requires Run(Init(n, me), acts).Some? && exists w :: 0 <= w < n && !Reached(n, me, acts).pcs[w].Done?
    ensures var s := Reached(n, me, acts);
      && !a.Read? && Enabled(s, a)
      && forall b: Action | !b.Read? && Enabled(s, b) :: Work(Next(s, b).pcs) < Work(s.pcs)
  {
    NoneCounted(n);
    RunKeeps(Init(n, me), acts);
    var s := Reached(n, me, acts);
    if v :| 0 <= v < n && s.pcs[v].Reading? {
      a := Count(v);
    } else if v :| 0 <= v < n && s.pcs[v].Freeing? {
      a := Delete(v);
    } else {
      a := Post;
    }
    forall b: Action | !b.Read? && Enabled(s, b) ensures Work(Next(s, b).pcs) < Work(s.pcs) {
      StepWorks(s, b);
    }
  }

  lemma StepWorks(s: State, b: Action)
    requires Inv(s) && !b.Read? && Enabled(s, b)
    ensures Work(Next(s, b).pcs) < Work(s.pcs)
  {
    var v := if b.Post? then s.posted else b.w;
    WorkUpdate(s.pcs, v, Next(s, b).pcs[v]);
    assert Next(s, b).pcs == s.pcs[v := Next(s, b).pcs[v]];
  }
}
