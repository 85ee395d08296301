/** Who holds an accepted descriptor. Worker 0 accepts; a descriptor is registered by a lambda on the
    worker it hashes to and removed there; the kernel may hand out its number again at once. */
module Descriptors {
  import opened Wire

  /** The worker of a descriptor: the sign bit of the 64-bit number is masked off. */
  function HashWk(id: nat, workers: nat): nat
    requires workers >= 1
  {
    (id % 0x8000_0000_0000_0000) % workers
  }

  /** A registration lambda: the descriptor and the connection object made for it. */
  datatype Reg = Reg(fd: nat, conn: nat)

  /** What a worker's thread is in the middle of: holding a descriptor it has just accepted, running a
      registration, or between erasing a descriptor from its table and closing it, for a connection or,
      over the limit, for none. */
  datatype Hand = Free | Accepted(fd: nat) | Adding(reg: Reg) | Removing(fd: nat, conn: Option<nat>)

  /** A connection object: its descriptor, whether it is established, and whether it has been registered. */
  datatype Info = Info(fd: nat, est: bool, registered: bool)

  /** `made` is the connection object last made for a descriptor, and `loops` the objects whose receive
      loops the workers are in. `fault` records that a registration met an entry for its descriptor, that a
      removal did not meet its own, or that a descriptor was closed that was not open. */
  datatype State = State(open: set<nat>, hands: seq<Hand>, queues: seq<seq<Reg>>, ans: seq<map<nat, nat>>,
                         limit: nat, conns: seq<Info>, made: map<nat, nat>, loops: seq<Option<nat>>, fault: bool)

  /** `Erase` removes an established connection, by `send`, `close` or the end of a receive loop; `Erro`
      the one that the table has for a number. */
  datatype Action =
    | Accept(fd: nat)
    | Dispatch
    | Dequeue(w: nat)
    | Add(w: nat)
    | Erase(w: nat, conn: nat)
    | Erro(w: nat, fd: nat)
    | Close(w: nat)
    | Enter(w: nat, fd: nat)
    | Leave(w: nat)

  function Init(n: nat, limit: nat): State {
    State({}, seq(n, _ => Free), seq(n, _ => []), seq(n, _ => map[]), limit, [], map[], seq(n, _ => None), false)
  }

  predicate Shape(s: State) {
    |s.hands| == |s.queues| == |s.ans| == |s.loops| >= 1
  }

  function Hash(s: State, fd: nat): nat
    requires Shape(s)
  {
    HashWk(fd, |s.hands|)
  }

  /** A worker accepts and takes lambdas between the events of connections, not within them; a connection
      is touched by its own worker only. */
  predicate Enabled(s: State, a: Action)
    requires Shape(s)
  {
    match a
    case Accept(fd) => s.hands[0].Free? && s.loops[0].None? && fd !in s.open
    case Dispatch => s.hands[0].Accepted?
    case Dequeue(w) => w < |s.hands| && s.hands[w].Free? && s.loops[w].None? && s.queues[w] != []
    case Add(w) => w < |s.hands| && s.hands[w].Adding?
    case Erase(w, conn) =>
      && w < |s.hands| && s.hands[w].Free? && conn < |s.conns|
      && s.conns[conn].registered && s.conns[conn].est && Hash(s, s.conns[conn].fd) == w
    case Erro(w, fd) => w < |s.hands| && s.hands[w].Free? && fd in s.ans[w]
    case Close(w) => w < |s.hands| && s.hands[w].Removing?
    case Enter(w, fd) => w < |s.hands| && s.hands[w].Free? && s.loops[w].None? && fd in s.ans[w]
    case Leave(w) => w < |s.hands| && s.hands[w].Free? && s.loops[w].Some?
  }

  function SetHand(s: State, w: nat, h: Hand): State
    requires w < |s.hands|
  {
    s.(hands := s.hands[w := h])
  }

  /** A connection is closed at once over the limit, registered in place on worker 0, and queued for
      any other worker. */
  function Dispatched(s: State, fd: nat): State
    requires Shape(s)
  {
    var reg := Reg(fd, |s.conns|);
    var made: map<nat, nat> := s.made[fd := |s.conns|];
    var s' := s.(conns := s.conns + [Info(fd, true, false)], made := made);
    if fd >= s.limit then SetHand(s, 0, Removing(fd, None))
    else if Hash(s, fd) == 0 then SetHand(s', 0, Adding(reg))
    else SetHand(s', 0, Free).(queues := s.queues[Hash(s, fd) := s.queues[Hash(s, fd)] + [reg]])
  }

  function SetInfo(s: State, conn: nat, i: Info): State {
    if conn < |s.conns| then s.(conns := s.conns[conn := i]) else s.(fault := true)
  }

  function WithEntry(table: map<nat, nat>, reg: Reg): map<nat, nat> { table[reg.fd := reg.conn] }

  function AddActorNet(s: State, w: nat, reg: Reg): State
    requires Shape(s) && w < |s.hands|
  {
    if reg.fd in s.ans[w] then s.(fault := true)
    else SetInfo(s.(ans := s.ans[w := WithEntry(s.ans[w], reg)]), reg.conn, Info(reg.fd, true, true))
  }

  /** The first half of a removal erases the number of the object, whoever is listed for it. */
  function Erased(s: State, w: nat, conn: nat, fd: nat): State
    requires Shape(s) && w < |s.hands|
  {
    var own := fd in s.ans[w] && s.ans[w][fd] == conn;
    SetHand(s, w, Removing(fd, Some(conn))).(ans := s.ans[w := s.ans[w] - {fd}], fault := s.fault || !own)
  }

  function Closed(s: State, w: nat, fd: nat, conn: Option<nat>): State
    requires Shape(s) && w < |s.hands|
  {
    var s' := SetHand(s, w, Free).(open := s.open - {fd}, fault := s.fault || fd !in s.open);
    if conn.Some? then SetInfo(s', conn.value, Info(fd, false, true)) else s'
  }

  function Next(s: State, a: Action): State
    requires Shape(s) && Enabled(s, a)
  {
    match a
    case Accept(fd) => SetHand(s, 0, Accepted(fd)).(open := s.open + {fd})
    case Dispatch => Dispatched(s, s.hands[0].fd)
    case Dequeue(w) => SetHand(s, w, Adding(s.queues[w][0])).(queues := s.queues[w := s.queues[w][1..]])
    case Add(w) => SetHand(AddActorNet(s, w, s.hands[w].reg), w, Free)
    case Erase(w, conn) => Erased(s, w, conn, s.conns[conn].fd)
    case Erro(w, fd) => Erased(s, w, s.ans[w][fd], fd)
    case Close(w) => Closed(s, w, s.hands[w].fd, s.hands[w].conn)
    case Enter(w, fd) => s.(loops := s.loops[w := Some(s.ans[w][fd])])
    case Leave(w) => s.(loops := s.loops[w := None])
  }

  function Run(s: State, acts: seq<Action>): Option<State>
    requires Shape(s)
    decreases |acts|
  {
    if acts == [] then Some(s)
    else if !Enabled(s, acts[0]) then None
    else Run(Next(s, acts[0]), acts[1..])
  }

  // ------------------------------------------------------------------ ownership

  /** The places where a descriptor can be held. */
  datatype Place = Queued(w: nat) | Held(w: nat) | Listed(w: nat)

  predicate Has(q: seq<Reg>, fd: nat) { exists i :: 0 <= i < |q| && q[i].fd == fd }

  predicate Distinct(q: seq<Reg>) { forall i, j | 0 <= i < j < |q| :: q[i].fd != q[j].fd }

  predicate Holds(h: Hand, fd: nat) {
    match h
    case Free => false
    case Accepted(f) => f == fd
    case Adding(reg) => reg.fd == fd
    case Removing(f, _) => f == fd
  }

  predicate At(s: State, p: Place, fd: nat)
    requires Shape(s)
  {
    p.w < |s.hands| &&
    match p
    case Queued(w) => Has(s.queues[w], fd)
    case Held(w) => Holds(s.hands[w], fd)
    case Listed(w) => fd in s.ans[w]
  }

  /** No descriptor is held in two places. */
  ghost predicate OnePlace(s: State)
    requires Shape(s)
  {
    && (forall p, q, fd | At(s, p, fd) && At(s, q, fd) :: p == q)
    && (forall w | 0 <= w < |s.queues| :: Distinct(s.queues[w]))
  }

  /** The open descriptors are exactly the held ones. */
  ghost predicate OpenIsHeld(s: State)
    requires Shape(s)
  {
    forall fd :: fd in s.open <==> exists p :: At(s, p, fd)
  }

  /** A descriptor within the limit is held by the worker it hashes to, except in the hand of worker 0
      that has just accepted it; one over the limit is only ever in that hand. */
  ghost predicate AtHome(s: State, p: Place, fd: nat)
    requires Shape(s) && At(s, p, fd)
  {
    || (p.w == Hash(s, fd) && fd < s.limit)
    || (p == Held(0) && (s.hands[0].Accepted? || (s.hands[0].Removing? && fd >= s.limit)))
  }

  ghost predicate Homes(s: State)
    requires Shape(s)
  {
    && (forall p, fd | At(s, p, fd) :: AtHome(s, p, fd))
    && (forall w | 0 < w < |s.hands| :: !s.hands[w].Accepted?)
  }

  /** Every registration and every entry is for the connection last made for its descriptor, so a reused
      number never leads to an older connection. */
  ghost predicate AllMade(s: State)
    requires Shape(s)
  {
    && (forall w, i | 0 <= w < |s.queues| && 0 <= i < |s.queues[w]| ::
          IsMade(s, s.queues[w][i].fd, s.queues[w][i].conn))
    && (forall w | 0 <= w < |s.hands| && s.hands[w].Adding? :: IsMade(s, s.hands[w].reg.fd, s.hands[w].reg.conn))
    && (forall w, fd | 0 <= w < |s.ans| && fd in s.ans[w] :: IsMade(s, fd, s.ans[w][fd]))
  }

  /** No connection is made for two descriptors. */
  predicate MadeOnce(made: map<nat, nat>, n: nat) {
    && (forall fd | fd in made :: made[fd] < n)
    && (forall fd, f | fd in made && f in made && made[fd] == made[f] :: fd == f)
  }

  ghost predicate Current(s: State)
    requires Shape(s)
  {
    AllMade(s) && MadeOnce(s.made, |s.conns|)
  }

  predicate IsMade(s: State, fd: nat, conn: nat) {
    fd in s.made && s.made[fd] == conn
  }

  /** The object of a registration that is still to come. */
  predicate Pending(s: State, r: Reg) { r.conn < |s.conns| && s.conns[r.conn] == Info(r.fd, true, false) }

  /** The object of an entry, or of a removal before its descriptor is closed. */
  predicate Linked(s: State, fd: nat, conn: nat) { conn < |s.conns| && s.conns[conn] == Info(fd, true, true) }

  predicate IsListed(s: State, w: nat, fd: nat, conn: nat)
    requires Shape(s) && w < |s.hands|
  {
    fd in s.ans[w] && s.ans[w][fd] == conn
  }

  ghost predicate AllPending(s: State)
    requires Shape(s)
  {
    && (forall w, i | 0 <= w < |s.queues| && 0 <= i < |s.queues[w]| :: Pending(s, s.queues[w][i]))
    && (forall w | 0 <= w < |s.hands| && s.hands[w].Adding? :: Pending(s, s.hands[w].reg))
  }

  ghost predicate AllLinked(s: State)
    requires Shape(s)
  {
    && (forall w, fd | 0 <= w < |s.ans| && fd in s.ans[w] :: Linked(s, fd, s.ans[w][fd]))
    && (forall w | 0 <= w < |s.hands| && s.hands[w].Removing? && s.hands[w].conn.Some? ::
          Linked(s, s.hands[w].fd, s.hands[w].conn.value))
    && (forall w | 0 <= w < |s.hands| && s.hands[w].Removing? && s.hands[w].conn.None? :: s.hands[w].fd >= s.limit)
  }

  ghost predicate AllTraced(s: State)
    requires Shape(s)
  {
    forall c | 0 <= c < |s.conns| && s.conns[c].est && s.conns[c].registered :: Traced(s, c)
  }

  /** The objects say what the tables say: a registered connection is established exactly while it is
      listed, or just being removed. */
  ghost predicate Informed(s: State)
    requires Shape(s)
  {
    AllPending(s) && AllLinked(s) && AllTraced(s)
  }

  predicate Traced(s: State, c: nat)
    requires Shape(s) && c < |s.conns|
  {
    var fd := s.conns[c].fd;
    IsListed(s, Hash(s, fd), fd, c) || s.hands[Hash(s, fd)] == Removing(fd, Some(c))
  }

  /** The object of a receive loop belongs to the worker. If it has been closed its number is not listed
      there, and on worker 0 it is not open. */
  ghost predicate Looping(s: State)
    requires Shape(s)
  {
    forall w | 0 <= w < |s.loops| && s.loops[w].Some? ::
      && LoopObject(s, w, s.loops[w].value)
      && (s.hands[w].Free? || s.hands[w].Removing?)
  }

  predicate LoopObject(s: State, w: nat, c: nat)
    requires Shape(s) && w < |s.hands|
  {
    && c < |s.conns| && s.conns[c].registered && Hash(s, s.conns[c].fd) == w
    && (!s.conns[c].est ==> s.conns[c].fd !in s.ans[w] && (w == 0 ==> s.conns[c].fd !in s.open))
  }

  ghost predicate Inv(s: State) {
    Shape(s) && OnePlace(s) && OpenIsHeld(s) && Homes(s) && Current(s) && Informed(s) && Looping(s) && !s.fault
  }

  /** From `s` to `s'` only `fd` changed its place. */
  ghost predicate Moved(s: State, s': State, fd: nat, from: Option<Place>, to: Option<Place>) {
    && Shape(s) && Shape(s')
    && (forall p, f :: At(s', p, f) <==> if f == fd then to == Some(p) else At(s, p, f))
    && (forall p :: At(s, p, fd) <==> from == Some(p))
  }

  lemma MoveKeepsOnePlace(s: State, s': State, fd: nat, from: Option<Place>, to: Option<Place>)
    requires Moved(s, s', fd, from, to) && OnePlace(s) && OpenIsHeld(s)
    requires s'.open == if to.Some? then s.open + {fd} else s.open - {fd}
    requires forall w | 0 <= w < |s'.queues| :: Distinct(s'.queues[w])
    ensures OnePlace(s') && OpenIsHeld(s')
  {
    forall f ensures f in s'.open <==> exists p :: At(s', p, f) {
      if f == fd {
        if to.Some? { assert At(s', to.value, f); }
      } else {
        assert f in s'.open <==> f in s.open;
        if f in s.open {
          var p :| At(s, p, f);
          assert At(s', p, f);
        }
      }
    }
  }

  lemma EnqueueHas(q: seq<Reg>, r: Reg, fd: nat)
    ensures Has(q + [r], fd) <==> Has(q, fd) || r.fd == fd
  {
    if Has(q, fd) {
      var i :| 0 <= i < |q| && q[i].fd == fd;
      assert (q + [r])[i].fd == fd;
    }
    if r.fd == fd { assert (q + [r])[|q|].fd == fd; }
  }

  lemma DequeueHas(q: seq<Reg>, fd: nat)
    requires q != [] && Distinct(q)
    ensures Has(q[1..], fd) <==> Has(q, fd) && q[0].fd != fd
    ensures Distinct(q[1..])
  {
    if Has(q[1..], fd) {
      var i :| 0 <= i < |q[1..]| && q[1..][i].fd == fd;
      assert q[i + 1].fd == fd;
    }
    if Has(q, fd) && q[0].fd != fd {
      var i :| 0 <= i < |q| && q[i].fd == fd;
      assert q[1..][i - 1].fd == fd;
    }
  }

  /** Entering and leaving a receive loop concern no descriptor. */
  predicate Moves(a: Action) { !a.Enter? && !a.Leave? }

  /** What a step does to the descriptor it is about. */
  function Subject(s: State, a: Action): nat
    requires Shape(s) && Enabled(s, a) && Moves(a)
  {
    match a
    case Accept(fd) => fd
    case Dispatch => s.hands[0].fd
    case Dequeue(w) => s.queues[w][0].fd
    case Add(w) => s.hands[w].reg.fd
    case Erase(w, conn) => s.conns[conn].fd
    case Erro(w, fd) => fd
    case Close(w) => s.hands[w].fd
  }

  function From(s: State, a: Action): Option<Place>
    requires Shape(s) && Enabled(s, a) && Moves(a)
  {
    match a
    case Accept(_) => None
    case Dispatch => Some(Held(0))
    case Dequeue(w) => Some(Queued(w))
    case Add(w) => Some(Held(w))
    case Erase(w, _) => Some(Listed(w))
    case Erro(w, _) => Some(Listed(w))
    case Close(w) => Some(Held(w))
  }

  function To(s: State, a: Action): Option<Place>
    requires Shape(s) && Enabled(s, a) && Moves(a)
  {
    match a
    case Accept(_) => Some(Held(0))
    case Dispatch =>
      var fd := s.hands[0].fd;
      Some(if fd >= s.limit || Hash(s, fd) == 0 then Held(0) else Queued(Hash(s, fd)))
    case Dequeue(w) => Some(Held(w))
    case Add(w) => Some(Listed(w))
    case Erase(w, _) => Some(Held(w))
    case Erro(w, _) => Some(Held(w))
    case Close(_) => None
  }

  lemma Alone(s: State, p: Place, fd: nat)
    requires Inv(s) && At(s, p, fd)
    ensures forall q :: At(s, q, fd) <==> q == p
    ensures fd in s.open
  {
  }

  /** The guard of a removal is right: the connection is listed for its number. */
  lemma EraseFinds(s: State, w: nat, conn: nat)
    requires Inv(s) && Enabled(s, Erase(w, conn))
    ensures IsListed(s, w, s.conns[conn].fd, conn)
  {
    assert Traced(s, conn);
  }

  lemma SubjectPlace(s: State, a: Action)
    requires Inv(s) && Enabled(s, a) && Moves(a)
    ensures forall p :: At(s, p, Subject(s, a)) <==> From(s, a) == Some(p)
    ensures a.Accept? || Subject(s, a) in s.open
  {
    if !a.Accept? {
      if a.Dequeue? { assert s.queues[a.w][0].fd == Subject(s, a); }
      if a.Erase? { EraseFinds(s, a.w, a.conn); }
      Alone(s, From(s, a).value, Subject(s, a));
    }
  }

  /** Every step that moves a descriptor moves one from one place to the next, and none meets a fault. */
  lemma StepMoves(s: State, a: Action)
    requires Inv(s) && Enabled(s, a) && Moves(a)
    ensures var s' := Next(s, a);
      && Moved(s, s', Subject(s, a), From(s, a), To(s, a))
      && (forall w | 0 <= w < |s'.queues| :: Distinct(s'.queues[w]))
      && s'.open == (if To(s, a).Some? then s.open + {Subject(s, a)} else s.open - {Subject(s, a)})
      && !s'.fault
  {
    SubjectPlace(s, a);
    match a
    case Accept(fd) =>
    case Dispatch => DispatchMoves(s);
    case Dequeue(w) => DequeueMoves(s, w);
    case Add(w) => AddMoves(s, w);
    case Erase(w, conn) => EraseFinds(s, w, conn); ErasedMoves(s, w, conn, s.conns[conn].fd);
    case Erro(w, fd) => ErasedMoves(s, w, s.ans[w][fd], fd);
    case Close(w) => CloseMoves(s, w);
  }

  lemma AddMoves(s: State, w: nat)
    requires Inv(s) && Enabled(s, Add(w))
    ensures var s', a := Next(s, Add(w)), Add(w);
      Moved(s, s', Subject(s, a), From(s, a), To(s, a)) && s'.queues == s.queues && s'.open == s.open && !s'.fault
  {
    SubjectPlace(s, Add(w));
    assert !At(s, Listed(w), s.hands[w].reg.fd);
    assert Pending(s, s.hands[w].reg);
  }

  lemma ErasedMoves(s: State, w: nat, conn: nat, fd: nat)
    requires Shape(s) && w < |s.hands| && s.hands[w].Free? && IsListed(s, w, fd, conn)
    requires forall p :: At(s, p, fd) <==> p == Listed(w)
    ensures var s' := Erased(s, w, conn, fd);
      && Moved(s, s', fd, Some(Listed(w)), Some(Held(w)))
      && s'.queues == s.queues && s'.open == s.open && s'.fault == s.fault
  {
    var s' := Erased(s, w, conn, fd);
    forall p, f ensures At(s', p, f) <==> if f == fd then p == Held(w) else At(s, p, f) {
      assert At(s, p, fd) <==> p == Listed(w);
      match p
      case Queued(_) =>
      case Held(_) =>
      case Listed(_) =>
    }
  }

  lemma CloseMoves(s: State, w: nat)
    requires Inv(s) && Enabled(s, Close(w))
    ensures var s', a := Next(s, Close(w)), Close(w);
      && Moved(s, s', Subject(s, a), From(s, a), To(s, a)) && s'.queues == s.queues
      && s'.open == s.open - {Subject(s, a)} && !s'.fault
  {
    SubjectPlace(s, Close(w));
    if s.hands[w].conn.Some? { assert Linked(s, s.hands[w].fd, s.hands[w].conn.value); }
  }

  lemma DispatchMoves(s: State)
    requires Inv(s) && Enabled(s, Dispatch)
    ensures var s' := Next(s, Dispatch);
      && Moved(s, s', Subject(s, Dispatch), From(s, Dispatch), To(s, Dispatch))
      && (forall w | 0 <= w < |s'.queues| :: Distinct(s'.queues[w]))
      && s'.open == s.open + {Subject(s, Dispatch)} && !s'.fault
  {
    SubjectPlace(s, Dispatch);
    var fd := s.hands[0].fd;
    var s', h := Next(s, Dispatch), Hash(s, fd);
    if fd < s.limit && h != 0 {
      assert !At(s, Queued(h), fd);
      forall f ensures Has(s'.queues[h], f) <==> Has(s.queues[h], f) || f == fd {
        EnqueueHas(s.queues[h], Reg(fd, |s.conns|), f);
      }
    }
  }

  lemma DequeueMoves(s: State, w: nat)
    requires Inv(s) && Enabled(s, Dequeue(w))
    ensures var s', a := Next(s, Dequeue(w)), Dequeue(w);
      && Moved(s, s', Subject(s, a), From(s, a), To(s, a))
      && (forall w | 0 <= w < |s'.queues| :: Distinct(s'.queues[w]))
  {
    SubjectPlace(s, Dequeue(w));
    forall f ensures Has(s.queues[w][1..], f) <==> Has(s.queues[w], f) && s.queues[w][0].fd != f {
      DequeueHas(s.queues[w], f);
    }
  }

  lemma StepKeepsCurrent(s: State, a: Action)
    requires Inv(s) && Enabled(s, a)
    ensures Current(Next(s, a))
  {
    match a
    case Accept(_) =>
    case Dispatch =>
      Unfound(s);
      DispatchKeepsCurrent(s);
    case Dequeue(w) => DequeueKeepsCurrent(s, w);
    case Add(w) => AddKeepsCurrent(s, w);
    case Erase(w, conn) => ErasedKeepsCurrent(s, w, conn, s.conns[conn].fd);
    case Erro(w, fd) => ErasedKeepsCurrent(s, w, s.ans[w][fd], fd);
    case Close(w) => CloseKeepsCurrent(s, w);
    case Enter(_, _) =>
    case Leave(_) =>
  }

  lemma DequeueKeepsCurrent(s: State, w: nat)
    requires Shape(s) && Current(s) && Enabled(s, Dequeue(w))
    ensures Current(Next(s, Dequeue(w)))
  {
    forall i | 0 <= i < |s.queues[w][1..]| ensures s.queues[w][1..][i] == s.queues[w][i + 1] {}
  }

  lemma AddKeepsCurrent(s: State, w: nat)
    requires Shape(s) && Current(s) && Enabled(s, Add(w))
    ensures Current(Next(s, Add(w)))
  {
  }

  lemma ErasedKeepsCurrent(s: State, w: nat, conn: nat, fd: nat)
    requires Shape(s) && Current(s) && w < |s.hands|
    ensures Current(Erased(s, w, conn, fd))
  {
  }

  lemma CloseKeepsCurrent(s: State, w: nat)
    requires Shape(s) && Current(s) && Enabled(s, Close(w))
    ensures Current(Next(s, Close(w)))
  {
  }

  /** The descriptor in the hand of worker 0 is nowhere else. */
  ghost predicate OnlyInHand(s: State, fd: nat)
    requires Shape(s)
  {
    && (forall w, i | 0 <= w < |s.queues| && 0 <= i < |s.queues[w]| :: s.queues[w][i].fd != fd)
    && (forall w | 0 <= w < |s.hands| && s.hands[w].Adding? :: s.hands[w].reg.fd != fd)
    && (forall w | 0 <= w < |s.ans| :: fd !in s.ans[w])
  }

  lemma Unfound(s: State)
    requires Inv(s) && Enabled(s, Dispatch)
    ensures OnlyInHand(s, s.hands[0].fd)
  {
    var fd := s.hands[0].fd;
    SubjectPlace(s, Dispatch);
    forall w, i | 0 <= w < |s.queues| && 0 <= i < |s.queues[w]| ensures s.queues[w][i].fd != fd {
      assert !At(s, Queued(w), fd);
    }
    forall w | 0 <= w < |s.hands| && s.hands[w].Adding? ensures s.hands[w].reg.fd != fd {
      assert At(s, Held(w), fd) ==> w == 0;
    }
    forall w | 0 <= w < |s.ans| ensures fd !in s.ans[w] {
      assert !At(s, Listed(w), fd);
    }
  }

  lemma DispatchKeepsCurrent(s: State)
    requires Shape(s) && Current(s) && Enabled(s, Dispatch) && OnlyInHand(s, s.hands[0].fd)
    ensures Current(Next(s, Dispatch))
  {
    DispatchKeepsMade(s);
  }

  lemma DispatchKeepsMade(s: State)
    requires Shape(s) && AllMade(s) && Enabled(s, Dispatch) && OnlyInHand(s, s.hands[0].fd)
    ensures AllMade(Next(s, Dispatch))
  {
  }

  // ------------------------------------------------------------------ what the objects say

  lemma AcceptKeepsInformed(s: State, fd: nat)
    requires Shape(s) && Informed(s) && Looping(s) && Enabled(s, Accept(fd))
    ensures Informed(Next(s, Accept(fd))) && Looping(Next(s, Accept(fd)))
  {
    var s' := Next(s, Accept(fd));
    forall c | 0 <= c < |s'.conns| && s'.conns[c].est && s'.conns[c].registered ensures Traced(s', c) {
      assert Traced(s, c);
    }
    forall w | 0 <= w < |s'.loops| && s'.loops[w].Some? ensures LoopObject(s', w, s'.loops[w].value) {
      assert LoopObject(s, w, s.loops[w].value);
    }
  }

  lemma DispatchKeepsPending(s: State)
    requires Shape(s) && AllPending(s) && Enabled(s, Dispatch)
    ensures AllPending(Next(s, Dispatch))
  {
    var s' := Next(s, Dispatch);
    forall w, i | 0 <= w < |s'.queues| && 0 <= i < |s'.queues[w]| ensures Pending(s', s'.queues[w][i]) {
      if i < |s.queues[w]| { assert Pending(s, s.queues[w][i]); }
    }
  }

  lemma DispatchKeepsInformed(s: State)
    requires Shape(s) && AllLinked(s) && AllTraced(s) && Enabled(s, Dispatch)
    ensures AllLinked(Next(s, Dispatch)) && AllTraced(Next(s, Dispatch))
  {
    var s' := Next(s, Dispatch);
    forall w, fd | 0 <= w < |s'.ans| && fd in s'.ans[w] ensures Linked(s', fd, s'.ans[w][fd]) {
      assert Linked(s, fd, s.ans[w][fd]);
    }
    forall c | 0 <= c < |s'.conns| && s'.conns[c].est && s'.conns[c].registered ensures Traced(s', c) {
      assert Traced(s, c);
    }
  }

  lemma DispatchKeepsLooping(s: State)
    requires Shape(s) && Looping(s) && Enabled(s, Dispatch)
    ensures Looping(Next(s, Dispatch))
  {
    var s' := Next(s, Dispatch);
    forall w | 0 <= w < |s'.loops| && s'.loops[w].Some? ensures LoopObject(s', w, s'.loops[w].value) {
      assert LoopObject(s, w, s.loops[w].value);
    }
  }

  lemma DequeueKeepsInformed(s: State, w: nat)
    requires Shape(s) && Informed(s) && Looping(s) && Enabled(s, Dequeue(w))
    ensures Informed(Next(s, Dequeue(w))) && Looping(Next(s, Dequeue(w)))
  {
    var s' := Next(s, Dequeue(w));
    forall v, i | 0 <= v < |s'.queues| && 0 <= i < |s'.queues[v]| ensures Pending(s', s'.queues[v][i]) {
      assert Pending(s, s.queues[v][if v == w then i + 1 else i]);
    }
    assert Pending(s, s.queues[w][0]);
    forall c | 0 <= c < |s'.conns| && s'.conns[c].est && s'.conns[c].registered ensures Traced(s', c) {
      assert Traced(s, c);
    }
    forall v | 0 <= v < |s'.loops| && s'.loops[v].Some? ensures LoopObject(s', v, s'.loops[v].value) {
      assert LoopObject(s, v, s.loops[v].value);
    }
  }

  /** What a registration does to what the objects say. */
  ghost predicate Added(s: State, s': State, w: nat) {
    && Shape(s) && w < |s.hands| && s.hands[w].Adding? && Shape(s') && |s'.hands| == |s.hands|
    && var reg := s.hands[w].reg;
    && Pending(s, reg) && reg.fd !in s.ans[w] && Hash(s, reg.fd) == w
    && s'.queues == s.queues && s'.loops == s.loops && s'.open == s.open && s'.limit == s.limit
    && s'.conns == s.conns[reg.conn := Info(reg.fd, true, true)]
    && s'.ans == s.ans[w := WithEntry(s.ans[w], reg)] && s'.hands == s.hands[w := Free]
    && (forall v, i | 0 <= v < |s.queues| && 0 <= i < |s.queues[v]| :: s.queues[v][i].fd != reg.fd)
    && (forall v | 0 <= v < |s.hands| && s.hands[v].Adding? && v != w :: s.hands[v].reg.fd != reg.fd)
  }

  lemma AddingAlone(s: State, w: nat)
    requires Inv(s) && Enabled(s, Add(w))
    ensures var reg := s.hands[w].reg;
      && Pending(s, reg) && reg.fd !in s.ans[w] && Hash(s, reg.fd) == w
      && (forall v, i | 0 <= v < |s.queues| && 0 <= i < |s.queues[v]| :: s.queues[v][i].fd != reg.fd)
      && (forall v | 0 <= v < |s.hands| && s.hands[v].Adding? && v != w :: s.hands[v].reg.fd != reg.fd)
  {
    var fd := s.hands[w].reg.fd;
    SubjectPlace(s, Add(w));
    assert !At(s, Listed(w), fd) && At(s, Held(w), fd) && AtHome(s, Held(w), fd);
    forall v, i | 0 <= v < |s.queues| && 0 <= i < |s.queues[v]| ensures s.queues[v][i].fd != fd {
      assert !At(s, Queued(v), fd);
    }
    forall v | 0 <= v < |s.hands| && s.hands[v].Adding? && v != w ensures s.hands[v].reg.fd != fd {
      assert !At(s, Held(v), fd);
    }
  }

  lemma AddKeepsInformed(s: State, w: nat)
    requires Shape(s) && Informed(s) && Looping(s) && Enabled(s, Add(w)) && Added(s, Next(s, Add(w)), w)
    ensures Informed(Next(s, Add(w))) && Looping(Next(s, Add(w)))
  {
    var s' := Next(s, Add(w));
    AddKeepsPending(s, s', w);
    AddKeepsTraced(s, s', w);
    AddKeepsLooping(s, s', w);
  }

  lemma AddKeepsPending(s: State, s': State, w: nat)
    requires Added(s, s', w) && AllPending(s)
    ensures AllPending(s')
  {
    forall v, i | 0 <= v < |s'.queues| && 0 <= i < |s'.queues[v]| ensures Pending(s', s'.queues[v][i]) {
      assert Pending(s, s.queues[v][i]);
    }
  }

  lemma AddKeepsTraced(s: State, s': State, w: nat)
    requires Added(s, s', w) && AllLinked(s) && AllTraced(s)
    ensures AllLinked(s') && AllTraced(s')
  {
    forall v, fd | 0 <= v < |s'.ans| && fd in s'.ans[v] ensures Linked(s', fd, s'.ans[v][fd]) {
      if fd in s.ans[v] { assert Linked(s, fd, s.ans[v][fd]); }
    }
    forall c | 0 <= c < |s'.conns| && s'.conns[c].est && s'.conns[c].registered ensures Traced(s', c) {
      if c != s.hands[w].reg.conn { assert Traced(s, c); }
    }
  }

  lemma AddKeepsLooping(s: State, s': State, w: nat)
    requires Added(s, s', w) && Looping(s)
    ensures Looping(s')
  {
    forall v | 0 <= v < |s'.loops| && s'.loops[v].Some? ensures LoopObject(s', v, s'.loops[v].value) {
      assert LoopObject(s, v, s.loops[v].value);
    }
  }

  lemma ErasedKeepsLinked(s: State, w: nat, conn: nat, fd: nat)
    requires Shape(s) && AllPending(s) && AllLinked(s) && w < |s.hands| && IsListed(s, w, fd, conn)
    ensures AllPending(Erased(s, w, conn, fd)) && AllLinked(Erased(s, w, conn, fd))
  {
    assert Linked(s, fd, conn);
  }

  lemma ErasedKeepsTraced(s: State, w: nat, conn: nat, fd: nat)
    requires Shape(s) && AllTraced(s) && w < |s.hands| && s.hands[w].Free?
    requires IsListed(s, w, fd, conn) && Hash(s, fd) == w
    ensures AllTraced(Erased(s, w, conn, fd))
  {
    var s' := Erased(s, w, conn, fd);
    forall c | 0 <= c < |s'.conns| && s'.conns[c].est && s'.conns[c].registered ensures Traced(s', c) {
      assert Traced(s, c);
    }
  }

  lemma ErasedKeepsLooping(s: State, w: nat, conn: nat, fd: nat)
    requires Shape(s) && Looping(s) && w < |s.hands| && s.hands[w].Free?
    ensures Looping(Erased(s, w, conn, fd))
  {
    var s' := Erased(s, w, conn, fd);
    forall v | 0 <= v < |s'.loops| && s'.loops[v].Some? ensures LoopObject(s', v, s'.loops[v].value) {
      assert LoopObject(s, v, s.loops[v].value);
    }
  }

  /** The descriptor that a worker is about to close is nowhere else. */
  ghost predicate ClosingAlone(s: State, w: nat)
    requires Shape(s) && w < |s.hands| && s.hands[w].Removing?
  {
    && (forall v | 0 <= v < |s.ans| :: s.hands[w].fd !in s.ans[v])
    && (forall v | 0 <= v < |s.hands| && s.hands[v].Removing? && v != w :: s.hands[v].fd != s.hands[w].fd)
    && (s.hands[w].conn.Some? ==> Linked(s, s.hands[w].fd, s.hands[w].conn.value))
  }

  lemma CloseIsAlone(s: State, w: nat)
    requires Inv(s) && Enabled(s, Close(w))
    ensures ClosingAlone(s, w)
  {
    SubjectPlace(s, Close(w));
    forall v | 0 <= v < |s.ans| ensures s.hands[w].fd !in s.ans[v] {
      assert !At(s, Listed(v), s.hands[w].fd);
    }
    forall v | 0 <= v < |s.hands| && s.hands[v].Removing? && v != w ensures s.hands[v].fd != s.hands[w].fd {
      assert !At(s, Held(v), s.hands[w].fd);
    }
  }

  lemma CloseKeepsPending(s: State, w: nat)
    requires Shape(s) && AllPending(s) && Enabled(s, Close(w)) && ClosingAlone(s, w)
    ensures AllPending(Next(s, Close(w)))
  {
    var s' := Next(s, Close(w));
    forall v, i | 0 <= v < |s'.queues| && 0 <= i < |s'.queues[v]| ensures Pending(s', s'.queues[v][i]) {
      assert Pending(s, s.queues[v][i]);
    }
  }

  lemma CloseKeepsTraced(s: State, w: nat)
    requires Shape(s) && AllLinked(s) && AllTraced(s) && Enabled(s, Close(w)) && ClosingAlone(s, w)
    ensures AllLinked(Next(s, Close(w))) && AllTraced(Next(s, Close(w)))
  {
    var s' := Next(s, Close(w));
    forall v, fd | 0 <= v < |s'.ans| && fd in s'.ans[v] ensures Linked(s', fd, s'.ans[v][fd]) {
      assert Linked(s, fd, s.ans[v][fd]);
    }
    forall c | 0 <= c < |s'.conns| && s'.conns[c].est && s'.conns[c].registered ensures Traced(s', c) {
      assert Traced(s, c);
    }
  }

  lemma CloseKeepsLooping(s: State, w: nat)
    requires Shape(s) && Looping(s) && Enabled(s, Close(w)) && ClosingAlone(s, w)
    ensures Looping(Next(s, Close(w)))
  {
    var s' := Next(s, Close(w));
    forall v | 0 <= v < |s'.loops| && s'.loops[v].Some? ensures LoopObject(s', v, s'.loops[v].value) {
      assert LoopObject(s, v, s.loops[v].value);
    }
  }

  lemma LoopKeepsInformed(s: State, a: Action)
    requires Inv(s) && Enabled(s, a) && !Moves(a)
    ensures Informed(Next(s, a)) && Looping(Next(s, a))
  {
    var s' := Next(s, a);
    if a.Enter? {
      assert At(s, Listed(a.w), a.fd) && AtHome(s, Listed(a.w), a.fd) && Linked(s, a.fd, s.ans[a.w][a.fd]);
    }
    forall c | 0 <= c < |s'.conns| && s'.conns[c].est && s'.conns[c].registered ensures Traced(s', c) {
      assert Traced(s, c);
    }
    forall v | 0 <= v < |s'.loops| && s'.loops[v].Some? ensures LoopObject(s', v, s'.loops[v].value) {
      if v != a.w { assert LoopObject(s, v, s.loops[v].value); }
    }
  }

  lemma StepKeepsInformed(s: State, a: Action)
    requires Inv(s) && Enabled(s, a)
    ensures Informed(Next(s, a)) && Looping(Next(s, a))
  {
    match a
    case Accept(fd) => AcceptKeepsInformed(s, fd);
    case Dispatch =>
      DispatchKeepsPending(s);
      DispatchKeepsInformed(s);
      DispatchKeepsLooping(s);
    case Dequeue(w) => DequeueKeepsInformed(s, w);
    case Add(w) =>
      AddingAlone(s, w);
      AddKeepsInformed(s, w);
    case Erase(w, conn) =>
      EraseFinds(s, w, conn);
      RemovalKeepsInformed(s, w, conn, s.conns[conn].fd);
    case Erro(w, fd) => RemovalKeepsInformed(s, w, s.ans[w][fd], fd);
    case Close(w) =>
      CloseIsAlone(s, w);
      CloseKeepsPending(s, w);
      CloseKeepsTraced(s, w);
      CloseKeepsLooping(s, w);
    case Enter(_, _) => LoopKeepsInformed(s, a);
    case Leave(_) => LoopKeepsInformed(s, a);
  }

  lemma RemovalKeepsInformed(s: State, w: nat, conn: nat, fd: nat)
    requires Inv(s) && w < |s.hands| && s.hands[w].Free? && IsListed(s, w, fd, conn)
    ensures Informed(Erased(s, w, conn, fd)) && Looping(Erased(s, w, conn, fd))
  {
    assert At(s, Listed(w), fd) && AtHome(s, Listed(w), fd);
    ErasedKeepsLinked(s, w, conn, fd);
    ErasedKeepsTraced(s, w, conn, fd);
    ErasedKeepsLooping(s, w, conn, fd);
  }

  // ------------------------------------------------------------------ all runs

  lemma MoveKeepsPlaces(s: State, a: Action)
    requires Inv(s) && Enabled(s, a) && Moves(a)
    ensures var s' := Next(s, a); OnePlace(s') && OpenIsHeld(s') && Homes(s') && !s'.fault
  {
    var s' := Next(s, a);
    StepMoves(s, a);
    MoveKeepsOnePlace(s, s', Subject(s, a), From(s, a), To(s, a));
    forall p, fd | At(s', p, fd) ensures AtHome(s', p, fd) {
      if fd != Subject(s, a) {
        assert At(s, p, fd) && AtHome(s, p, fd);
      } else if !a.Accept? {
        assert AtHome(s, From(s, a).value, fd);
      }
    }
  }

  lemma LoopMovesNothing(s: State, a: Action)
    requires Shape(s) && Enabled(s, a) && !Moves(a)
    ensures var s' := Next(s, a);
      && Shape(s') && (forall p, fd :: At(s', p, fd) <==> At(s, p, fd))
      && s'.open == s.open && s'.hands == s.hands && s'.queues == s.queues && s'.limit == s.limit && s'.fault == s.fault
  {
  }

  lemma LoopKeepsPlaces(s: State, a: Action)
    requires Inv(s) && Enabled(s, a) && !Moves(a)
    ensures var s' := Next(s, a); OnePlace(s') && OpenIsHeld(s') && Homes(s') && !s'.fault
  {
    var s' := Next(s, a);
    LoopMovesNothing(s, a);
    forall p, fd | At(s', p, fd) ensures AtHome(s', p, fd) {
      assert At(s, p, fd) && AtHome(s, p, fd);
    }
    forall fd ensures fd in s'.open <==> exists p :: At(s', p, fd) {
      if fd in s.open {
        var p :| At(s, p, fd);
        assert At(s', p, fd);
      }
    }
  }

  lemma StepKeeps(s: State, a: Action)
    requires Inv(s) && Enabled(s, a)
    ensures Inv(Next(s, a))
  {
    StepKeepsCurrent(s, a);
    StepKeepsInformed(s, a);
    if Moves(a) { MoveKeepsPlaces(s, a); } else { LoopKeepsPlaces(s, a); }
  }

  lemma {:induction false} RunKeeps(s: State, acts: seq<Action>)
    requires Inv(s) && Run(s, acts).Some?
    ensures Inv(Run(s, acts).value) && |Run(s, acts).value.hands| == |s.hands|
    decreases |acts|
  {
    if acts != [] {
      StepKeeps(s, acts[0]);
      RunKeeps(Next(s, acts[0]), acts[1..]);
    }
  }

  lemma InitInv(n: nat, limit: nat)
    requires n >= 1
    ensures Inv(Init(n, limit))
  {
  }

  ghost function Reached(n: nat, limit: nat, acts: seq<Action>): (s: State)
    requires n >= 1 && Run(Init(n, limit), acts).Some?
    ensures Inv(s) && |s.hands| == n
  {
    InitInv(n, limit);
    RunKeeps(Init(n, limit), acts);
    Run(Init(n, limit), acts).value
  }

  /** Whatever the interleaving of the workers and however the kernel reuses numbers: the open
      descriptors are exactly the held ones, each in one place and, within the limit, with the worker it
      hashes to or just accepted, and leads to the connection last made for it. A registered connection is
      established exactly while it is listed for its number on that worker, or just being removed there. So
      no registration finds an entry for its number, no table of another worker has one, every removal that
      the `est` of its object allows erases the entry of that object, and nothing is closed twice. */
  lemma DescriptorOwnership(n: nat, limit: nat, acts: seq<Action>)
    requires n >= 1 && Run(Init(n, limit), acts).Some?
    ensures var s := Run(Init(n, limit), acts).value;
      && Shape(s) && OpenIsHeld(s) && OnePlace(s) && Homes(s) && Current(s)
      && !s.fault
      && (forall c | 0 <= c < |s.conns| && s.conns[c].registered ::
            var fd := s.conns[c].fd;
            s.conns[c].est <==> IsListed(s, Hash(s, fd), fd, c) || s.hands[Hash(s, fd)] == Removing(fd, Some(c)))
      && (forall fd | fd in s.open && fd < s.limit :: s.hands[0] == Accepted(fd) || OnItsWay(s, Hash(s, fd), fd))
      && (forall w | 0 <= w < |s.hands| && s.hands[w].Adding? :: s.hands[w].reg.fd !in s.ans[w])
      && (forall w, v, fd | 0 <= w < |s.ans| && 0 <= v < |s.ans| && fd in s.ans[w] && fd in s.ans[v] :: w == v)
  {
    InitInv(n, limit);
    RunKeeps(Init(n, limit), acts);
    InvOwns(Run(Init(n, limit), acts).value);
  }

  /** A connection on worker `w` between its acceptance and its close: its registration is queued or being
      run for an object made for it, or it is listed, or its own object is being removed. */
  predicate OnItsWay(s: State, w: nat, fd: nat)
    requires Shape(s) && w < |s.hands|
  {
    || (exists i :: 0 <= i < |s.queues[w]| && s.queues[w][i].fd == fd && Pending(s, s.queues[w][i]))
    || (s.hands[w].Adding? && s.hands[w].reg.fd == fd && Pending(s, s.hands[w].reg))
    || (fd in s.ans[w] && Linked(s, fd, s.ans[w][fd]))
    || (s.hands[w].Removing? && s.hands[w].fd == fd && s.hands[w].conn.Some? && Linked(s, fd, s.hands[w].conn.value))
  }

  lemma OpenIsOnItsWay(s: State, fd: nat)
    requires Inv(s) && fd in s.open && fd < s.limit
    ensures s.hands[0] == Accepted(fd) || OnItsWay(s, Hash(s, fd), fd)
  {
    var p :| At(s, p, fd);
    assert AtHome(s, p, fd);
    if p.Queued? {
      var i :| 0 <= i < |s.queues[p.w]| && s.queues[p.w][i].fd == fd;
      assert Pending(s, s.queues[p.w][i]);
    } else if p.Held? && s.hands[p.w].Removing? && s.hands[p.w].conn.Some? {
      assert Linked(s, fd, s.hands[p.w].conn.value);
    } else if p.Listed? {
      assert Linked(s, fd, s.ans[p.w][fd]);
    }
  }

  lemma InvOwns(s: State)
    requires Inv(s)
    ensures forall c | 0 <= c < |s.conns| && s.conns[c].registered ::
              var fd := s.conns[c].fd;
              s.conns[c].est <==> IsListed(s, Hash(s, fd), fd, c) || s.hands[Hash(s, fd)] == Removing(fd, Some(c))
    ensures forall fd | fd in s.open && fd < s.limit :: s.hands[0] == Accepted(fd) || OnItsWay(s, Hash(s, fd), fd)
    ensures forall w | 0 <= w < |s.hands| && s.hands[w].Adding? :: s.hands[w].reg.fd !in s.ans[w]
    ensures forall w, v, fd | 0 <= w < |s.ans| && 0 <= v < |s.ans| && fd in s.ans[w] && fd in s.ans[v] :: w == v
  {
    forall c | 0 <= c < |s.conns| && s.conns[c].registered
      ensures s.conns[c].est <==> Traced(s, c)
    {
      var fd := s.conns[c].fd;
      if IsListed(s, Hash(s, fd), fd, c) { assert Linked(s, fd, c); }
    }
    forall fd | fd in s.open && fd < s.limit ensures s.hands[0] == Accepted(fd) || OnItsWay(s, Hash(s, fd), fd) {
      OpenIsOnItsWay(s, fd);
    }
    forall w | 0 <= w < |s.hands| && s.hands[w].Adding? ensures s.hands[w].reg.fd !in s.ans[w] {
      AddingAlone(s, w);
    }
    forall w, v, fd | 0 <= w < |s.ans| && 0 <= v < |s.ans| && fd in s.ans[w] && fd in s.ans[v] ensures w == v {
      assert At(s, Listed(w), fd) && At(s, Listed(v), fd);
    }
  }

  // ------------------------------------------------------------------ registration

  /** Within the limit an accepted connection gets an object, and its registration is run in place by worker
      0 if it hashes there, and otherwise put at the end of the queue of the worker it hashes to; over the
      limit it gets none and is closed. */
  lemma DispatchRegisters(s: State)
    requires Shape(s) && Enabled(s, Dispatch)
    ensures var s', fd := Next(s, Dispatch), s.hands[0].fd;
      var h, reg := Hash(s, fd), Reg(fd, |s.conns|);
      if fd >= s.limit then s'.hands[0] == Removing(fd, None) && s'.conns == s.conns && s'.queues == s.queues
      else
        && s'.conns == s.conns + [Info(fd, true, false)]
        && s'.hands[0] == (if h == 0 then Adding(reg) else Free)
        && s'.queues == if h == 0 then s.queues else s.queues[h := s.queues[h] + [reg]]
  {
  }

  /** In every reachable state, running a registration lists its object, established, under its number. */
  lemma AddRegisters(n: nat, limit: nat, acts: seq<Action>, w: nat)
    requires n >= 1 && Run(Init(n, limit), acts).Some?
    requires w < n && Reached(n, limit, acts).hands[w].Adding?
    ensures var s := Reached(n, limit, acts);
      var reg, s' := s.hands[w].reg, Next(s, Add(w));
      && Shape(s') && w < |s'.hands| && IsListed(s', w, reg.fd, reg.conn) && Linked(s', reg.fd, reg.conn)
      && w == Hash(s, reg.fd)
  {
    AddingAlone(Reached(n, limit, acts), w);
  }

  /** Consecutive descriptors go to the workers in turn. */
  lemma HashInTurn(fd: nat, workers: nat)
    requires workers >= 1 && fd + 1 < 0x8000_0000_0000_0000
    ensures HashWk(fd, workers) < workers
    ensures HashWk(0, workers) == 0
    ensures HashWk(fd + 1, workers) == if HashWk(fd, workers) == workers - 1 then 0 else HashWk(fd, workers) + 1
  {
    var q, m, q', m' := fd / workers, fd % workers, (fd + 1) / workers, (fd + 1) % workers;
    DivMod(fd, workers);
    DivMod(fd + 1, workers);
    MulLe(q, q, workers);
    if m == workers - 1 {
      SameRemainder(workers, q + 1, 0, q', m');
    } else {
      SameRemainder(workers, q, m + 1, q', m');
    }
  }

  // ------------------------------------------------------------------ receiving

  /** What the receive loop of worker `w` meets when it calls `recv`, always on the number of the event:
      the connection of its object, a number that is not open, or another connection. */
  datatype Met = Own | Nothing | Another

  function Meets(s: State, w: nat): Met
    requires Shape(s) && w < |s.hands| && s.loops[w].Some? && s.loops[w].value < |s.conns|
  {
    var c := s.loops[w].value;
    var fd := s.conns[c].fd;
    if IsListed(s, w, fd, c) then Own else if fd !in s.open then Nothing else Another
  }

  /** Between the steps of its handlers a receive loop meets its own connection exactly while its object is
      established; once a handler has closed it, worker 0 meets nothing, and any other worker nothing or a
      connection that was accepted since and is not yet registered. */
  lemma RecvMeets(n: nat, limit: nat, acts: seq<Action>, w: nat)
    requires n >= 1 && Run(Init(n, limit), acts).Some? && w < n
    ensures var s := Run(Init(n, limit), acts).value;
      && Shape(s) && |s.hands| == n
      && (s.loops[w].Some? && s.hands[w].Free? ==>
            && s.loops[w].value < |s.conns|
            && (Meets(s, w) == Own <==> s.conns[s.loops[w].value].est)
            && (Meets(s, w) == Own ==> s.conns[s.loops[w].value].fd in s.open)
            && (Meets(s, w) == Another ==> w != 0 && s.conns[s.loops[w].value].fd !in s.ans[w]))
  {
    InitInv(n, limit);
    RunKeeps(Init(n, limit), acts);
    var s := Run(Init(n, limit), acts).value;
    if s.loops[w].Some? && s.hands[w].Free? { LoopMeets(s, w); }
  }

  lemma LoopMeets(s: State, w: nat)
    requires Inv(s) && w < |s.hands| && s.loops[w].Some? && s.hands[w].Free?
    ensures s.loops[w].value < |s.conns|
    ensures Meets(s, w) == Own <==> s.conns[s.loops[w].value].est
    ensures Meets(s, w) == Own ==> s.conns[s.loops[w].value].fd in s.open
    ensures Meets(s, w) == Another ==> w != 0 && s.conns[s.loops[w].value].fd !in s.ans[w]
  {
    var c := s.loops[w].value;
    assert LoopObject(s, w, c);
    var fd := s.conns[c].fd;
    if s.conns[c].est { assert Traced(s, c); }
    if IsListed(s, w, fd, c) {
      assert Linked(s, fd, c) && At(s, Listed(w), fd);
      Alone(s, Listed(w), fd);
    }
  }

  predicate MeetsAnother(n: nat, limit: nat, acts: seq<Action>, w: nat)
    requires n >= 1
  {
    && Run(Init(n, limit), acts).Some?
    && var s := Run(Init(n, limit), acts).value;
    && Shape(s) && w < |s.hands| && s.loops[w].Some? && s.hands[w].Free? && s.loops[w].value < |s.conns|
    && Meets(s, w) == Another
  }

  lemma RunCons(s: State, a: Action, acts: seq<Action>)
    requires Shape(s) && Enabled(s, a)
    ensures Shape(Next(s, a)) && Run(s, [a] + acts) == Run(Next(s, a), acts)
  {
    assert ([a] + acts)[1..] == acts;
  }

  /** The first part of a run on at least two workers: number 1 is accepted, */
  lemma Accepted1(n: nat) returns (s: State)
    requires n >= 2
    ensures Shape(Init(n, 2)) && Enabled(Init(n, 2), Accept(1)) && s == Next(Init(n, 2), Accept(1))
    ensures Shape(s) && |s.hands| == n && s.open == {1} && s.limit == 2 && s.conns == []
    ensures s.hands[0] == Accepted(1) && s.hands[1].Free? && s.loops[0].None? && s.loops[1].None?
    ensures s.queues[1] == [] && 1 !in s.ans[1]
  {
    s := Next(Init(n, 2), Accept(1));
  }

  /** and the lambda that registers connection 0 under it is queued for worker 1. */
  lemma Queued1(s: State) returns (s': State)
    requires Shape(s) && |s.hands| >= 2 && s.open == {1} && s.limit == 2 && s.conns == []
    requires s.hands[0] == Accepted(1) && s.hands[1].Free? && s.loops[0].None? && s.loops[1].None?
    requires s.queues[1] == [] && 1 !in s.ans[1]
    ensures Enabled(s, Dispatch) && s' == Next(s, Dispatch)
    ensures Shape(s') && |s'.hands| == |s.hands| && s'.open == {1} && s'.hands[0].Free? && s'.hands[1].Free?
    ensures s'.loops[0].None? && s'.loops[1].None? && s'.conns == [Info(1, true, false)]
    ensures s'.queues[1] == [Reg(1, 0)] && 1 !in s'.ans[1]
  {
    assert HashWk(1, |s.hands|) == 1;
    s' := Next(s, Dispatch);
  }

  function ToLoop(acts: seq<Action>): seq<Action> { [Dequeue(1)] + ([Add(1)] + ([Enter(1, 1)] + acts)) }

  /** Then it is registered, and worker 1 enters its receive loop. */
  lemma Entered(s0: State, acts: seq<Action>) returns (s: State)
    requires Shape(s0) && |s0.hands| >= 2 && s0.hands[0].Free? && s0.hands[1].Free?
    requires s0.loops[0].None? && s0.loops[1].None? && s0.conns == [Info(1, true, false)]
    requires s0.queues[1] == [Reg(1, 0)] && 1 !in s0.ans[1]
    ensures Shape(s) && Run(s0, ToLoop(acts)) == Run(s, acts)
    ensures |s.hands| == |s0.hands| && s.open == s0.open && s.hands[0].Free? && s.hands[1].Free? && s.loops[0].None?
    ensures s.loops[1] == Some(0) && s.conns == [Info(1, true, true)] && IsListed(s, 1, 1, 0)
  {
    RunCons(s0, Dequeue(1), [Add(1)] + ([Enter(1, 1)] + acts));
    s := Next(s0, Dequeue(1));
    RunCons(s, Add(1), [Enter(1, 1)] + acts);
    s := Next(s, Add(1));
    RunCons(s, Enter(1, 1), acts);
    s := Next(s, Enter(1, 1));
  }

  /** A handler closes the connection it runs for, and worker 0 accepts its number again. */
  lemma Taken(s0: State) returns (s: State)
    requires Shape(s0) && |s0.hands| >= 2 && s0.open == {1} && s0.hands[0].Free? && s0.hands[1].Free?
    requires s0.loops[0].None? && s0.loops[1] == Some(0) && s0.conns == [Info(1, true, true)] && IsListed(s0, 1, 1, 0)
    ensures Run(s0, [Erase(1, 0)] + ([Close(1)] + ([Accept(1)] + []))) == Some(s)
    ensures Shape(s) && |s.hands| == |s0.hands| && s.loops[1] == Some(0) && s.hands[1].Free? && |s.conns| == 1
    ensures Meets(s, 1) == Another
  {
    assert Hash(s0, 1) == 1;
    RunCons(s0, Erase(1, 0), [Close(1)] + ([Accept(1)] + []));
    s := Next(s0, Erase(1, 0));
    RunCons(s, Close(1), [Accept(1)] + []);
    s := Next(s, Close(1));
    RunCons(s, Accept(1), []);
    s := Next(s, Accept(1));
  }

  lemma Reused(n: nat) returns (acts: seq<Action>)
    requires n >= 2
    ensures MeetsAnother(n, 2, acts, 1)
  {
    var rest := [Erase(1, 0)] + ([Close(1)] + ([Accept(1)] + []));
    acts := [Accept(1)] + ([Dispatch] + ToLoop(rest));
    var s1 := Accepted1(n);
    RunCons(Init(n, 2), Accept(1), [Dispatch] + ToLoop(rest));
    var s2 := Queued1(s1);
    RunCons(s1, Dispatch, ToLoop(rest));
    var s3 := Entered(s2, rest);
    var s4 := Taken(s3);
  }

  lemma AnotherNeedsTwo(n: nat, limit: nat, acts: seq<Action>, w: nat)
    requires n >= 1 && MeetsAnother(n, limit, acts, w)
    ensures n >= 2
  {
    InitInv(n, limit);
    RunKeeps(Init(n, limit), acts);
    RecvMeets(n, limit, acts, w);
  }

  /** A receive loop can meet a connection that is not its object's if and only if there is a second worker. */
  lemma AnotherExactly(n: nat)
    requires n >= 1
    ensures (exists limit: nat, acts, w: nat :: MeetsAnother(n, limit, acts, w)) <==> n >= 2
  {
    if n >= 2 { var acts := Reused(n); }
    if exists limit: nat, acts, w: nat :: MeetsAnother(n, limit, acts, w) {
      var limit: nat, acts, w: nat :| MeetsAnother(n, limit, acts, w);
      AnotherNeedsTwo(n, limit, acts, w);
    }
  }
}
