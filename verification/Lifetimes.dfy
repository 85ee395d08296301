/** The life of a connection object on its worker: references, the deletion mark, and who is told when
    the connection is lost. Everything a worker does to an object is one of the acts below. */
module Lifetimes {
  import opened Wire

  /** The fields of the object, and its history: the calls of `evnDis`, how often the user object was
      deleted, whether an error event took the connection off the table, and the calls of `close` that
      came when the connection was lost already. */
  datatype Life = Life(rc: int, rf: bool, est: bool, user: bool, notices: nat, freed: nat, erred: bool, late: nat)
  {
    /** A marked object is deleted with its last reference. */
    predicate Alive() { !(rf && rc < 1) }

    /** What every act keeps. */
    predicate Lawful() {
      && rc >= 0
      && (est ==> notices == 0 && late == 0 && !erred)
      && (!est ==> notices == late + if erred then 0 else 1)
      && (rf <==> notices > 0)
      && freed == if user then notices else 0
    }
  }

  /** `Login` attaches a user object; `Fail` is a send that fails or the end of a failed read, which
      concern established connections only; `Err` is an error event. */
  datatype Act = Pin | Unpin | Login | Fail | Close | Err

  const ESTABLISHED := Life(0, false, true, false, 0, 0, false, 0)

  /** `evnDis`: the user object is told and deleted, and the object marked. */
  function Disconnect(l: Life): Life {
    l.(est := false, rf := true, notices := l.notices + 1, freed := l.freed + if l.user then 1 else 0)
  }

  predicate Can(l: Life, a: Act) {
    && l.Alive()
    && match a
       case Unpin => l.rc >= 1
       case Login => l.est
       case Err => l.est
       case _ => true
  }

  function After(l: Life, a: Act): Life {
    match a
    case Pin => l.(rc := l.rc + 1)
    case Unpin => l.(rc := l.rc - 1)
    case Login => l.(user := true)
    case Fail => if l.est then Disconnect(l) else l
    case Close => Disconnect(if l.est then l else l.(late := l.late + 1))
    case Err => l.(est := false, erred := true)
  }

  function Play(l: Life, acts: seq<Act>): Life
    decreases |acts|
  {
    if acts == [] then l else Play(After(l, acts[0]), acts[1..])
  }

  /** No act meets a deleted object. */
  predicate Playable(l: Life, acts: seq<Act>)
    decreases |acts|
  {
    acts == [] || (Can(l, acts[0]) && Playable(After(l, acts[0]), acts[1..]))
  }

  lemma {:induction false} PlayAppend(l: Life, a: seq<Act>, b: seq<Act>)
    ensures Play(l, a + b) == Play(Play(l, a), b)
    ensures Playable(l, a + b) <==> Playable(l, a) && Playable(Play(l, a), b)
    decreases |a|
  {
    if a == [] {
      assert a + b == b;
    } else {
      assert (a + b)[1..] == a[1..] + b;
      PlayAppend(After(l, a[0]), a[1..], b);
    }
  }

  lemma {:induction false} PlayKeeps(l: Life, acts: seq<Act>)
    requires l.Lawful() && Playable(l, acts)
    ensures Play(l, acts).Lawful()
    decreases |acts|
  {
    if acts != [] { PlayKeeps(After(l, acts[0]), acts[1..]); }
  }

  /** A pin taken for the time of an event changes nothing but what may happen in between. */
  lemma PinsCancel(l: Life, acts: seq<Act>)
    ensures Play(l, [Pin] + acts + [Unpin]) == Play(l, acts)
  {
    PlayAppend(l, [Pin] + acts, [Unpin]);
    assert ([Pin] + acts)[1..] == acts && [Unpin][1..] == [];
    PlayPinned(l, acts);
  }

  lemma {:induction false} PlayPinned(l: Life, acts: seq<Act>)
    ensures Play(After(l, Pin), acts) == After(Play(l, acts), Pin)
    decreases |acts|
  {
    if acts != [] {
      PinCommutes(l, acts[0]);
      PlayPinned(After(l, acts[0]), acts[1..]);
    }
  }

  lemma PinCommutes(l: Life, a: Act)
    ensures After(After(l, Pin), a) == After(After(l, a), Pin)
  {
  }

  // ------------------------------------------------------------------ all connections of a worker

  datatype Move<K> = Move(on: K, act: Act)

  function Of<K(==)>(moves: seq<Move<K>>, k: K): seq<Act> {
    if moves == [] then [] else (if moves[0].on == k then [moves[0].act] else []) + Of(moves[1..], k)
  }

  /** What an event does to an object: the event's own object is pinned while handlers run, and fails
      at the end if the event did. */
  function Turn(acts: seq<Act>, own: bool, ok: bool): seq<Act> {
    if own then [Pin] + acts + (if ok then [] else [Fail]) + [Unpin] else acts
  }

  /** Its three phases: the pin, the acts of handlers, and the failure, if there is one, with the release. */
  function Begun(l: Life, own: bool): Life { if own then After(l, Pin) else l }

  function Failed(l: Life, ok: bool): Life { if ok then l else After(l, Fail) }

  function Ended(l: Life, own: bool, ok: bool): Life { if own then After(Failed(l, ok), Unpin) else l }

  lemma TurnPhases(l: Life, acts: seq<Act>, own: bool, ok: bool)
    ensures var m := Play(Begun(l, own), acts);
      && Play(l, Turn(acts, own, ok)) == Ended(m, own, ok)
      && (Playable(l, Turn(acts, own, ok)) <==>
            && Playable(Begun(l, own), acts)
            && (own ==> l.Alive() && m.Alive() && Failed(m, ok).Alive() && Failed(m, ok).rc >= 1))
  {
    if own {
      var m, last := Play(After(l, Pin), acts), (if ok then [] else [Fail]) + [Unpin];
      assert Turn(acts, true, ok) == [Pin] + (acts + last);
      assert ([Pin] + (acts + last))[1..] == acts + last;
      PlayAppend(After(l, Pin), acts, last);
      assert last[1..] == if ok then [] else [Unpin];
      assert [Unpin][1..] == [];
    }
  }

  /** A handler that lets go only of what it took hold of, `held` so far, and may close its connections
      and fail to send on them as it likes. */
  predicate Fair(acts: seq<Act>, held: nat) {
    acts == [] ||
    match acts[0]
    case Pin => Fair(acts[1..], held + 1)
    case Unpin => held > 0 && Fair(acts[1..], held - 1)
    case Fail => Fair(acts[1..], held)
    case Close => Fair(acts[1..], held)
    case _ => false
  }

  lemma {:induction false} FairKeepsOthersPins(l: Life, acts: seq<Act>, held: nat)
    requires l.rc > held && Fair(acts, held)
    ensures Playable(l, acts) && Play(l, acts).rc >= l.rc - held
    decreases |acts|
  {
    if acts != [] {
      FairKeepsOthersPins(After(l, acts[0]), acts[1..],
                          if acts[0].Pin? then held + 1 else if acts[0].Unpin? then held - 1 else held);
    }
  }

  /** The pin of an event protects its object from everything such handlers do to it: no act meets a
      deleted object, and neither does the end of the event. */
  lemma PinProtects(l: Life, acts: seq<Act>, ok: bool)
    requires l.Lawful() && l.Alive() && Fair(acts, 0)
    ensures Playable(l, Turn(acts, true, ok))
  {
    FairKeepsOthersPins(After(l, Pin), acts, 0);
    TurnPhases(l, acts, true, ok);
  }

  /** `Add` registers a new connection; `moves` are what handlers, or a lambda, do to connections of the
      worker, in order; `lost` are the subscribers to which a send of a publication failed. */
  datatype Event<K> =
    | Add(k: K)
    | Recv(k: K, moves: seq<Move<K>>, ok: bool)
    | Send(k: K, moves: seq<Move<K>>)
    | Erro(k: K)
    | Publish(lost: set<K>)
    | Lambda(moves: seq<Move<K>>)

  /** What the event does to the object `k`. */
  function Part<K(==)>(e: Event<K>, k: K): seq<Act> {
    match e
    case Add(_) => []
    case Recv(own, moves, ok) => Turn(Of(moves, k), k == own, ok)
    case Send(own, moves) => Turn(Of(moves, k), k == own, true)
    case Erro(own) => if k == own then [Err] else []
    case Publish(lost) => if k in lost then [Fail] else []
    case Lambda(moves) => Of(moves, k)
  }

  /** A new object is no older one, and an event finds its object on the table, where it is while it is
      established. */
  predicate Enabled<K(==)>(ls: map<K, Life>, e: Event<K>) {
    && (e.Add? ==> e.k !in ls)
    && (e.Recv? || e.Send? || e.Erro? ==> e.k in ls && ls[e.k].est)
    && forall k | k in ls :: Playable(ls[k], Part(e, k))
  }

  function Step<K(==)>(ls: map<K, Life>, e: Event<K>): map<K, Life> {
    var after := map k | k in ls :: Play(ls[k], Part(e, k));
    if e.Add? then after[e.k := ESTABLISHED] else after
  }

  // ------------------------------------------------------------------ what events come to

  lemma PlayOne(l: Life, a: Act)
    ensures Play(l, [a]) == After(l, a)
  {
    assert [a][1..] == [];
  }

  /** What an event does in the end, object by object: handlers and lambdas do what they do, with the pin of
      the event gone again; a failed read loses its connection unless a handler has; an error event drops
      its connection; a publication loses the subscribers it failed to reach. */
  lemma StepComesTo<K>(ls: map<K, Life>, e: Event<K>, k: K)
    requires k in ls && Enabled(ls, e)
    ensures k in Step(ls, e) && Step(ls, e)[k] ==
      match e
      case Add(_) => ls[k]
      case Recv(own, moves, ok) =>
        var l := Play(ls[k], Of(moves, k));
        if k == own && !ok && l.est then Disconnect(l) else l
      case Send(_, moves) => Play(ls[k], Of(moves, k))
      case Erro(own) => if k == own then ls[k].(est := false, erred := true) else ls[k]
      case Publish(lost) => if k in lost && ls[k].est then Disconnect(ls[k]) else ls[k]
      case Lambda(moves) => Play(ls[k], Of(moves, k))
  {
    match e
    case Add(_) =>
    case Recv(own, moves, ok) => if k == own { TurnComesTo(ls[k], Of(moves, k), ok); }
    case Send(own, moves) => if k == own { TurnComesTo(ls[k], Of(moves, k), true); }
    case Erro(own) => PlayOne(ls[k], Err);
    case Publish(lost) => PlayOne(ls[k], Fail);
    case Lambda(_) =>
  }

  lemma TurnComesTo(l: Life, acts: seq<Act>, ok: bool)
    ensures Play(l, Turn(acts, true, ok)) == if ok then Play(l, acts) else After(Play(l, acts), Fail)
  {
    var last := if ok then [] else [Fail];
    assert [Pin] + acts + last == [Pin] + (acts + last);
    PinsCancel(l, acts + last);
    PlayAppend(l, acts, last);
    if ok { assert acts + last == acts; } else { PlayOne(Play(l, acts), Fail); }
  }

  lemma {:induction false} OfKeepsErr<K>(moves: seq<Move<K>>, k: K)
    requires forall i | 0 <= i < |moves| :: moves[i].act != Err
    ensures Err !in Of(moves, k)
  {
    if moves != [] { OfKeepsErr(moves[1..], k); }
  }

  lemma {:induction false} PlayNoErr(l: Life, acts: seq<Act>)
    requires Err !in acts
    ensures Play(l, acts).erred == l.erred
    decreases |acts|
  {
    if acts != [] { PlayNoErr(After(l, acts[0]), acts[1..]); }
  }

  /** Whatever its handlers did, a read event that fails leaves its connection lost and marked, so that it
      is deleted unless referred to, and has notified it exactly if the handlers left it established. */
  lemma FailedRead<K>(ls: map<K, Life>, k: K, moves: seq<Move<K>>)
    requires AllLawful(ls) && Enabled(ls, Recv(k, moves, false))
    requires forall i | 0 <= i < |moves| :: moves[i].act != Err
    ensures var l, l' := Play(ls[k], Of(moves, k)), Step(ls, Recv(k, moves, false))[k];
      && !l'.est && l'.rf && (l'.Alive() <==> l'.rc >= 1)
      && l'.rc == l.rc && l'.notices == l.notices + (if l.est then 1 else 0)
  {
    var acts := Of(moves, k);
    StepComesTo(ls, Recv(k, moves, false), k);
    OfKeepsErr(moves, k);
    PlayNoErr(ls[k], acts);
    PlayKeeps(ls[k], Part(Recv(k, moves, false), k));
  }

  /** The objects after a sequence of events, if they are possible in that order. */
  function Run<K(==)>(ls: map<K, Life>, es: seq<Event<K>>): Option<map<K, Life>>
    decreases |es|
  {
    if es == [] then Some(ls)
    else if !Enabled(ls, es[0]) then None
    else Run(Step(ls, es[0]), es[1..])
  }

  predicate AllLawful<K>(ls: map<K, Life>) { forall k | k in ls :: ls[k].Lawful() }

  lemma StepKeeps<K>(ls: map<K, Life>, e: Event<K>)
    requires AllLawful(ls) && Enabled(ls, e)
    ensures AllLawful(Step(ls, e))
  {
    forall k | k in ls ensures Play(ls[k], Part(e, k)).Lawful() {
      PlayKeeps(ls[k], Part(e, k));
    }
  }

  lemma {:induction false} RunKeeps<K>(ls: map<K, Life>, es: seq<Event<K>>)
    requires AllLawful(ls) && Run(ls, es).Some?
    ensures AllLawful(Run(ls, es).value)
    decreases |es|
  {
    if es != [] {
      StepKeeps(ls, es[0]);
      RunKeeps(Step(ls, es[0]), es[1..]);
    }
  }

  /** Notified once, its user object deleted once, and marked, so that it goes with its last reference. */
  predicate EndsWell(l: Life) {
    l.notices == 1 && l.rf && l.freed == if l.user then 1 else 0
  }

  /** Over all runs a connection on the table has neither been notified nor marked, and one off the table
      ends well if and only if `close` was called on it, after it was lost, exactly once if an error
      event took it off and never otherwise. It fails in two ways: with an error event and no close it is
      not marked, so it outlives its references until somebody closes it; with more late closes than that it
      has been notified, and its user object deleted, once more for each. */
  lemma Lifecycle<K>(es: seq<Event<K>>, k: K)
    requires Run(map[], es).Some? && k in Run(map[], es).value
    ensures var l := Run(map[], es).value[k];
      && (l.est ==> l.notices == 0 && l.Alive() && !l.rf)
      && (!l.est ==> (EndsWell(l) <==> l.late == if l.erred then 1 else 0))
      && (!l.est ==> l.notices == l.late + if l.erred then 0 else 1)
      && (!l.est ==> (l.Alive() <==> l.rc >= 1 || (l.erred && l.late == 0)))
  {
    RunKeeps(map[], es);
  }

  /** A worker with one connection, number 0. */
  function One(l: Life): map<nat, Life> { map[0 := l] }

  /** What a worker's only connection becomes. */
  function Alone(es: seq<Event<nat>>): Option<map<nat, Life>> { Run(map[], [Add(0)] + es) }

  lemma RunOne(l: Life, e: Event<nat>, es: seq<Event<nat>>)
    requires !e.Add? && (e.Recv? || e.Send? || e.Erro? ==> e.k == 0 && l.est) && Playable(l, Part(e, 0))
    ensures Run(One(l), [e] + es) == Run(One(Play(l, Part(e, 0))), es)
  {
    assert ([e] + es)[1..] == es;
    assert Step(One(l), e) == One(Play(l, Part(e, 0)));
  }

  lemma RunAdd(es: seq<Event<nat>>)
    ensures Alone(es) == Run(One(ESTABLISHED), es)
  {
    var none: map<nat, Life> := map[];
    assert ([Add(0)] + es)[1..] == es && Step(none, Add(0)) == One(ESTABLISHED);
  }

  lemma AloneAfterOne(e: Event<nat>)
    requires !e.Add? && (e.Recv? || e.Send? || e.Erro? ==> e.k == 0) && Playable(ESTABLISHED, Part(e, 0))
    ensures Alone([e]) == Some(One(Play(ESTABLISHED, Part(e, 0))))
  {
    RunAdd([e]);
    assert [e] + [] == [e];
    RunOne(ESTABLISHED, e, []);
  }

  /** The shortest run after which a connection has been told nothing and is not marked. */
  lemma ErrorTellsNobody()
    ensures Alone([Erro(0)]) == Some(One(Life(0, false, false, false, 0, 0, true, 0)))
  {
    AloneAfterOne(Erro(0));
  }

  /** A connection that somebody refers to, closed twice: its user object is deleted twice. */
  lemma ClosedTwice()
    ensures Alone([Lambda([Move(0, Pin), Move(0, Login), Move(0, Close), Move(0, Close)])])
         == Some(One(Life(1, true, false, true, 2, 2, false, 1)))
  {
    var ms: seq<Move<nat>> := [Move(0, Pin), Move(0, Login), Move(0, Close), Move(0, Close)];
    OfClosedTwice(ms);
    PlayClosedTwice();
    AloneAfterOne(Lambda(ms));
  }

  lemma OfClosedTwice(ms: seq<Move<nat>>)
    requires ms == [Move(0, Pin), Move(0, Login), Move(0, Close), Move(0, Close)]
    ensures Of(ms, 0) == [Pin, Login, Close, Close]
  {
    var two := ms[1..][1..];
    assert Of(two[1..][1..], 0) == [];
    assert Of(two[1..], 0) == [Close] + [];
    assert Of(two, 0) == [Close] + [Close];
    assert Of(ms[1..], 0) == [Login] + [Close, Close];
  }

  lemma PlayClosedTwice()
    ensures Playable(ESTABLISHED, [Pin, Login, Close, Close])
    ensures Play(ESTABLISHED, [Pin, Login, Close, Close]) == Life(1, true, false, true, 2, 2, false, 1)
  {
    assert [Pin, Login, Close, Close][1..] == [Login, Close, Close];
    assert [Login, Close, Close][1..] == [Close, Close] && [Close, Close][1..] == [Close];
  }

  /** A close after an error event makes up for it. */
  lemma ErrorThenClose()
    ensures Alone([Erro(0), Lambda([Move(0, Close)])]) == Some(One(Life(0, true, false, false, 1, 0, true, 1)))
  {
    var e: Event<nat> := Lambda([Move(0, Close)]);
    RunAdd([Erro(0), e]);
    assert [Erro(0)] + [e] == [Erro(0), e] && [e] + [] == [e];
    RunOne(ESTABLISHED, Erro(0), [e]);
    RunOne(After(ESTABLISHED, Err), e, []);
  }

  // ------------------------------------------------------------------ senders of several frames

  /** A sender looks at `est` of its object after every frame but the last, and stops when it is lost;
      `fails` says which sends fail. Whether it always looks at a live object: */
  predicate LooksAtLive(l: Life, fails: seq<bool>)
    decreases |fails|
  {
    |fails| <= 1 ||
    var l' := if fails[0] then After(l, Fail) else l;
    l'.Alive() && (l'.est ==> LooksAtLive(l', fails[1..]))
  }

  /** It does exactly if somebody refers to the object, or no frame but the last fails. */
  lemma {:induction false} SenderLooksAtLive(l: Life, fails: seq<bool>)
    requires l.Lawful() && l.est
    ensures LooksAtLive(l, fails) <==> l.rc >= 1 || forall i | 0 <= i < |fails| - 1 :: !fails[i]
    decreases |fails|
  {
    if |fails| > 1 && !fails[0] {
      SenderLooksAtLive(l, fails[1..]);
      assert forall i | 0 < i < |fails| - 1 :: fails[i] == fails[1..][i - 1];
      if l.rc < 1 && forall i | 0 <= i < |fails[1..]| - 1 :: !fails[1..][i] {
        forall i | 0 <= i < |fails| - 1 ensures !fails[i] {
          if i > 0 { assert !fails[1..][i - 1]; }
        }
      }
    }
  }
}
