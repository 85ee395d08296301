/** Events of connections on their worker. Handlers may do to the connections of the worker, the event's
    own included, whatever an object allows: refer to them and let go of them, send and fail, close them,
    also once they are lost. */
module Dispatch {
  import opened Lifetimes
  import opened Actors

  /** The objects of a worker: what its table holds and what its handlers still refer to. */
  ghost predicate Ready(w: Fworker, all: set<Conn>)
    reads w, all
  {
    && (forall fd | fd in w.ans :: w.ans[fd] in all && w.ans[fd].cfd == fd)
    && (forall an | an in all :: OnTable(w, an))
  }

  ghost function Lives(all: set<Conn>): map<Conn, Life>
    reads all
  {
    map an | an in all :: an.Abs()
  }

  /** Each object is as `goal` says once it has been through the acts that remain for it. */
  ghost predicate Heading(all: set<Conn>, moves: seq<Move<Conn>>, goal: map<Conn, Life>)
    requires all <= goal.Keys
    reads all
  {
    forall an | an in all :: Playable(an.Abs(), Of(moves, an)) && Play(an.Abs(), Of(moves, an)) == goal[an]
  }

  predicate Handled(all: set<Conn>, moves: seq<Move<Conn>>) {
    forall i | 0 <= i < |moves| :: moves[i].on in all && moves[i].act != Err
  }

  /** One act of a handler. */
  method Do(w: Fworker, an: Conn, act: Act, ghost all: set<Conn>)
    requires Ready(w, all) && an in all && Can(an.Abs(), act) && act != Err
    modifies w`ans, w`closed, an
    ensures Ready(w, all) && an.Abs() == After(old(an.Abs()), act) && an.tid == old(an.tid)
  {
    match act
    case Pin => an.Ref();
    case Unpin => an.UnRef();
    case Login => an.fusr := true;
    case Fail => if an.est { DoLose(w, an, all); }
    case Close => DoClose(w, an, all);
    case Err =>
  }

  method DoLose(w: Fworker, an: Conn, ghost all: set<Conn>)
    requires Ready(w, all) && an in all && an.est
    modifies w`ans, w`closed, an
    ensures Ready(w, all) && an.Abs() == After(old(an.Abs()), Fail) && an.tid == old(an.tid)
  {
    w.Lose(an);
  }

  method DoClose(w: Fworker, an: Conn, ghost all: set<Conn>)
    requires Ready(w, all) && an in all && an.alive
    modifies w`ans, w`closed, an
    ensures Ready(w, all) && an.Abs() == After(old(an.Abs()), Close) && an.tid == old(an.tid)
  {
    w.Close(an);
  }

  /** One move, after which the remaining ones lead to the goal. */
  method DoNext(w: Fworker, moves: seq<Move<Conn>>, i: nat, ghost all: set<Conn>, ghost goal: map<Conn, Life>)
    requires i < |moves| && Handled(all, moves) && all <= goal.Keys
    requires Ready(w, all) && Heading(all, moves[i..], goal)
    modifies w`ans, w`closed, moves[i].on
    ensures Ready(w, all) && Heading(all, moves[i + 1..], goal)
  {
    forall an | an in all
      ensures an != moves[i].on ==> Of(moves[i..], an) == Of(moves[i + 1..], an)
      ensures an == moves[i].on ==> Of(moves[i..], an) != [] && Of(moves[i..], an)[0] == moves[i].act
                                    && Of(moves[i..], an)[1..] == Of(moves[i + 1..], an)
    {
      assert moves[i..][1..] == moves[i + 1..];
    }
    Do(w, moves[i].on, moves[i].act, all);
  }

  /** Handlers make all moves. */
  method DoAll(w: Fworker, moves: seq<Move<Conn>>, ghost all: set<Conn>, ghost goal: map<Conn, Life>)
    requires Ready(w, all) && Handled(all, moves) && all <= goal.Keys && Heading(all, moves, goal)
    modifies w`ans, w`closed, all
    ensures Ready(w, all) && forall an | an in all :: an.Abs() == goal[an]
  {
    assert moves[0..] == moves;
    for i := 0 to |moves|
      invariant Ready(w, all) && Heading(all, moves[i..], goal)
    {
      DoNext(w, moves, i, all, goal);
    }
    assert moves[|moves|..] == [];
  }

  /** The moves, made while the own object of an event is pinned, lead from `start` to `mid`. */
  predicate Leads(start: map<Conn, Life>, own: Conn, moves: seq<Move<Conn>>, mid: map<Conn, Life>) {
    && start.Keys == mid.Keys
    && forall an | an in start ::
         && Playable(Begun(start[an], an == own), Of(moves, an))
         && Play(Begun(start[an], an == own), Of(moves, an)) == mid[an]
  }

  /** The lives when the event is over. */
  function Final(mid: map<Conn, Life>, own: Conn, ok: bool): map<Conn, Life> {
    map an | an in mid :: Ended(mid[an], an == own, ok)
  }

  lemma ServePhases(start: map<Conn, Life>, own: Conn, moves: seq<Move<Conn>>, ok: bool) returns (mid: map<Conn, Life>)
    requires own in start && Enabled(start, Recv(own, moves, ok))
    ensures Leads(start, own, moves, mid) && start[own].Alive()
    ensures mid[own].Alive() && Failed(mid[own], ok).Alive() && mid[own].rc >= 1
    ensures Step(start, Recv(own, moves, ok)) == Final(mid, own, ok)
  {
    mid := map an | an in start :: Play(Begun(start[an], an == own), Of(moves, an));
    forall an | an in start
      ensures Playable(Begun(start[an], an == own), Of(moves, an))
      ensures Part(Recv(own, moves, ok), an) == Turn(Of(moves, an), an == own, ok)
      ensures Play(start[an], Turn(Of(moves, an), an == own, ok)) == Ended(mid[an], an == own, ok)
    {
      TurnPhases(start[an], Of(moves, an), an == own, ok);
      assert Playable(start[an], Part(Recv(own, moves, ok), an));
    }
    TurnPhases(start[own], Of(moves, own), true, ok);
    assert Playable(start[own], Part(Recv(own, moves, ok), own));
  }

  method DoPinned(w: Fworker, own: Conn, moves: seq<Move<Conn>>, ghost all: set<Conn>,
                  ghost start: map<Conn, Life>, ghost mid: map<Conn, Life>)
    requires Ready(w, all) && Handled(all, moves) && own in all && own.alive
    requires start == Lives(all) && Leads(start, own, moves, mid)
    modifies w`ans, w`closed, all
    ensures Ready(w, all) && forall an | an in all :: an.Abs() == mid[an]
  {
    assert forall an | an in all :: start[an] == an.Abs();
    Do(w, own, Pin, all);
    DoAll(w, moves, all, mid);
  }

  /** The end of a read event: a connection that failed and is still there is removed; then the pin is
      dropped, after which the object is not touched. */
  method Conclude(w: Fworker, an: Conn, flag: bool, ghost all: set<Conn>)
    requires Ready(w, all) && an in all && an.alive
    requires Failed(an.Abs(), flag).Alive() && an.rc >= 1
    modifies w`ans, w`closed, an
    ensures Ready(w, all) && an.tid == old(an.tid)
    ensures an.Abs() == Ended(old(an.Abs()), true, flag)
  {
    if !flag { Do(w, an, Fail, all); }
    Do(w, an, Unpin, all);
  }

  lemma EnabledParts(all: set<Conn>, e: Event<Conn>)
    requires Enabled(Lives(all), e)
    ensures forall an | an in all :: Playable(an.Abs(), Part(e, an))
  {
    forall an | an in all ensures Playable(an.Abs(), Part(e, an)) {
      assert Lives(all)[an] == an.Abs();
    }
  }

  lemma AreLives(all: set<Conn>, ls: map<Conn, Life>)
    requires ls.Keys == all && forall an | an in all :: an.Abs() == ls[an]
    ensures Lives(all) == ls
  {
  }

  method ConcludeAll(w: Fworker, own: Conn, flag: bool, ghost all: set<Conn>, ghost mid: map<Conn, Life>)
    requires Ready(w, all) && own in all && mid.Keys == all && forall an | an in all :: an.Abs() == mid[an]
    requires mid[own].Alive() && Failed(mid[own], flag).Alive() && mid[own].rc >= 1
    modifies w`ans, w`closed, own
    ensures Ready(w, all) && Lives(all) == Final(mid, own, flag)
  {
    Conclude(w, own, flag, all);
    AreLives(all, Final(mid, own, flag));
  }

  /** What read and write events have in common. */
  method Serve(w: Fworker, own: Conn, moves: seq<Move<Conn>>, flag: bool, ghost all: set<Conn>)
    requires Ready(w, all) && Handled(all, moves) && own in all && Enabled(Lives(all), Recv(own, moves, flag))
    modifies w`ans, w`closed, all
    ensures Ready(w, all) && Lives(all) == Step(old(Lives(all)), Recv(own, moves, flag))
  {
    ghost var start := Lives(all);
    ghost var mid := ServePhases(start, own, moves, flag);
    assert start[own] == own.Abs();
    DoPinned(w, own, moves, all, start, mid);
    ConcludeAll(w, own, flag, all, mid);
  }

  // ------------------------------------------------------------------ events

  /** A lambda of a connection, or of whoever holds one. */
  method RunLambda(w: Fworker, moves: seq<Move<Conn>>, ghost all: set<Conn>)
    requires Ready(w, all) && Handled(all, moves) && Enabled(Lives(all), Lambda(moves))
    modifies w`ans, w`closed, all
    ensures Ready(w, all) && Lives(all) == Step(old(Lives(all)), Lambda(moves))
  {
    EnabledParts(all, Lambda(moves));
    ghost var goal := Step(Lives(all), Lambda(moves));
    DoAll(w, moves, all, goal);
    AreLives(all, goal);
  }

  /** The registration of an accepted connection under a number that is not listed. */
  method EvnConn(w: Fworker, an: Conn, ghost all: set<Conn>)
    requires Ready(w, all) && an !in all && an.cfd !in w.ans && an.Sound() && an.Abs() == ESTABLISHED
    modifies w`ans
    ensures Ready(w, all + {an}) && Lives(all + {an}) == Step(old(Lives(all)), Event.Add(an))
  {
    w.AddActorNet(an);
  }

  /** A read event: `moves` are what handlers do during the receive loop, `flag` is the loop's verdict. If
      the read went well the objects are as the handlers leave them; if not, the connection is off the
      table, marked and notified. */
  method EvnRecv(w: Fworker, fd: nat, moves: seq<Move<Conn>>, flag: bool, ghost all: set<Conn>)
    requires Ready(w, all) && Handled(all, moves)
    requires fd in w.ans ==> Enabled(Lives(all), Recv(w.ans[fd], moves, flag))
    modifies w`ans, w`closed, all
    ensures Ready(w, all)
    ensures Lives(all) ==
            if fd in old(w.ans) then Step(old(Lives(all)), Recv(old(w.ans[fd]), moves, flag)) else old(Lives(all))
    ensures fd in old(w.ans) && flag ==>
              forall an | an in all :: an.Abs() == Play(old(Lives(all))[an], Of(moves, an))
    ensures fd in old(w.ans) && !flag ==>
              var an := old(w.ans[fd]);
              && !an.est && an.rf && an.notices >= 1 && (an.alive <==> an.rc >= 1)
              && !(fd in w.ans && w.ans[fd] == an)
  {
    if fd !in w.ans { return; }
    ReadEnds(Lives(all), w.ans[fd], moves, flag);
    Serve(w, w.ans[fd], moves, flag, all);
  }

  lemma ReadEnds(ls: map<Conn, Life>, own: Conn, moves: seq<Move<Conn>>, flag: bool)
    requires AllLawful(ls) && Enabled(ls, Recv(own, moves, flag))
    requires forall i | 0 <= i < |moves| :: moves[i].act != Err
    ensures var r := Step(ls, Recv(own, moves, flag));
      && (flag ==> forall an | an in ls :: r[an] == Play(ls[an], Of(moves, an)))
      && (!flag ==> !r[own].est && r[own].rf && r[own].notices >= 1 && (r[own].Alive() <==> r[own].rc >= 1))
  {
    StepKeeps(ls, Recv(own, moves, flag));
    if flag {
      forall an | an in ls ensures Step(ls, Recv(own, moves, true))[an] == Play(ls[an], Of(moves, an)) {
        StepComesTo(ls, Recv(own, moves, true), an);
      }
    } else {
      FailedRead(ls, own, moves);
    }
  }

  lemma SendIsRecv(ls: map<Conn, Life>, own: Conn, moves: seq<Move<Conn>>)
    ensures Step(ls, Send(own, moves)) == Step(ls, Recv(own, moves, true))
    ensures Enabled(ls, Send(own, moves)) <==> Enabled(ls, Recv(own, moves, true))
  {
  }

  /** A write event: `moves` are a failure of the connection while its queue is written, if there is one,
      and whatever those who are told of it do. */
  method EvnSend(w: Fworker, fd: nat, moves: seq<Move<Conn>>, ghost all: set<Conn>)
    requires Ready(w, all) && Handled(all, moves)
    requires fd in w.ans ==> Enabled(Lives(all), Send(w.ans[fd], moves))
    modifies w`ans, w`closed, all
    ensures Ready(w, all)
    ensures Lives(all) ==
            if fd in old(w.ans) then Step(old(Lives(all)), Send(old(w.ans[fd]), moves)) else old(Lives(all))
    ensures fd in old(w.ans) ==>
              forall an | an in all :: an.Abs() == Play(old(Lives(all))[an], Of(moves, an))
  {
    if fd !in w.ans { return; }
    SendIsRecv(Lives(all), w.ans[fd], moves);
    ReadEnds(Lives(all), w.ans[fd], moves, true);
    Serve(w, w.ans[fd], moves, true, all);
  }

  lemma ErroGoal(ls: map<Conn, Life>, own: Conn)
    ensures forall an | an in ls :: Step(ls, Erro(own))[an] == if an == own then After(ls[an], Err) else ls[an]
  {
    assert [Err][1..] == [];
    assert Part(Erro(own), own) == [Err] && forall an | an != own :: Part(Erro(own), an) == [];
  }

  /** An error event takes the connection off the table and tells nobody. */
  method EvnErro(w: Fworker, fd: nat, ghost all: set<Conn>)
    requires Ready(w, all)
    modifies w`ans, w`closed, all
    ensures Ready(w, all) && w.ans == old(w.ans) - {fd}
    ensures Lives(all) == if fd in old(w.ans) then Step(old(Lives(all)), Erro(old(w.ans[fd]))) else old(Lives(all))
  {
    if fd !in w.ans { return; }
    ghost var goal := Step(Lives(all), Erro(w.ans[fd]));
    ErroGoal(Lives(all), w.ans[fd]);
    Drop(w, w.ans[fd], all);
    AreLives(all, goal);
  }

  method Drop(w: Fworker, an: Conn, ghost all: set<Conn>)
    requires Ready(w, all) && an in all && an.est
    modifies w`ans, w`closed, an
    ensures Ready(w, all) && w.ans == old(w.ans) - {an.cfd}
    ensures an.Abs() == After(old(an.Abs()), Err)
  {
    w.RemoveActorNet(an);
    an.erred := true;
  }
}
