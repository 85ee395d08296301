/** Reference counts, deletion marks and the connection table of a worker. */
module Actors {
  import opened Lifetimes

  /** A connection object. `alive` ends with `delete this`; the ghost counts are those of `Life`. */
  class Conn {
    const cfd: nat
    var rc: int
    var rf: bool
    var est: bool
    var fusr: bool
    var tid: int
    ghost var alive: bool
    ghost var notices: nat
    ghost var freed: nat
    ghost var erred: bool
    ghost var late: nat

    ghost function Abs(): Life
      reads this
    {
      Life(rc, rf, est, fusr, notices, freed, erred, late)
    }

    /** The object lives as its count and mark say. */
    ghost predicate Counted()
      reads this
    {
      alive == Abs().Alive()
    }

    ghost predicate Sound()
      reads this
    {
      Counted() && Abs().Lawful()
    }

    constructor (cfd: nat)
      ensures this.cfd == cfd && Sound() && alive && Abs() == ESTABLISHED
    {
      this.cfd, rc, rf, est, fusr, tid := cfd, 0, false, true, false, 0;
      alive, notices, freed, erred, late := true, 0, 0, false, 0;
    }

    method Ref()
      requires alive && Counted()
      modifies `rc
      ensures Counted() && Abs() == After(old(Abs()), Pin)
    {
      rc := rc + 1;
    }

    method UnRef()
      requires alive && Counted()
      modifies `rc, `alive
      ensures Counted() && Abs() == After(old(Abs()), Unpin)
    {
      rc := rc - 1;
      if rc < 1 && rf { alive := false; }
    }

    method Del()
      requires alive && Counted()
      modifies `rf, `alive
      ensures Counted() && Abs() == old(Abs()).(rf := true)
    {
      rf := true;
      if rc < 1 { alive := false; }
    }

    method EvnDis()
      requires alive && Counted()
      modifies `est, `rf, `alive, `notices, `freed
      ensures Counted() && Abs() == Disconnect(old(Abs()))
    {
      est, notices := false, notices + 1;
      if fusr { freed := freed + 1; }
      Del();
    }
  }

  /** A subscription: the connection and its session id. */
  datatype Sub = Sub(an: Conn, sid: nat)

  /** A message sent, or tried, to a subscriber under a transaction id. */
  datatype Attempt = Attempt(to: Sub, stid: int)

  class Fworker {
    var ans: map<nat, Conn>
    var subscribers: map<string, seq<Sub>>
    /** The descriptors closed and the messages sent to subscribers so far. */
    ghost var closed: seq<nat>
    ghost var attempts: seq<Attempt>

    /** The table holds live, established, unmarked connections under their own descriptors only. */
    ghost predicate Valid()
      reads this, ans.Values
    {
      forall fd | fd in ans :: ans[fd].cfd == fd && ans[fd].Sound() && ans[fd].alive && ans[fd].est
    }

    constructor ()
      ensures Valid() && ans == map[] && subscribers == map[]
    {
      ans, subscribers, closed, attempts := map[], map[], [], [];
    }

    method AddActorNet(an: Conn)
      requires Valid() && an.Sound() && an.alive && an.est
      modifies `ans
      ensures Valid() && ans == if an.cfd in old(ans) then old(ans) else old(ans)[an.cfd := an]
    {
      if an.cfd in ans { return; }
      ans := ans[an.cfd := an];
    }

    /** The number of the object is erased and closed, whoever is listed under it. */
    method RemoveActorNet(an: Conn)
      requires an.alive
      modifies `ans, `closed, an`est
      ensures ans == old(ans) - {an.cfd} && closed == old(closed) + [an.cfd]
      ensures an.Abs() == old(an.Abs()).(est := false)
      ensures old(Valid()) ==> Valid()
    {
      ans, closed := ans - {an.cfd}, closed + [an.cfd];
      an.est := false;
    }

    /** The end of an established connection, as after a failed send: erased, closed, notified. */
    method Lose(an: Conn)
      requires an.Sound() && an.alive && an.est
      modifies `ans, `closed, an
      ensures ans == old(ans) - {an.cfd} && closed == old(closed) + [an.cfd]
      ensures an.Sound() && an.Abs() == After(old(an.Abs()), Fail) && an.tid == old(an.tid)
      ensures old(Valid()) ==> Valid()
    {
      RemoveActorNet(an);
      an.EvnDis();
    }

    /** `close`: a lost connection is not removed again, but it is notified again. */
    method Close(an: Conn)
      requires an.Sound() && an.alive
      modifies `ans, `closed, an
      ensures ans == if old(an.est) then old(ans) - {an.cfd} else old(ans)
      ensures closed == if old(an.est) then old(closed) + [an.cfd] else old(closed)
      ensures an.Sound() && an.Abs() == After(old(an.Abs()), Act.Close) && an.tid == old(an.tid)
      ensures old(Valid()) ==> Valid()
    {
      if an.est { RemoveActorNet(an); } else { an.late := an.late + 1; }
      an.EvnDis();
    }
  }

  /** An object is on its worker's table exactly while it is established. */
  ghost predicate OnTable(w: Fworker, an: Conn)
    reads w, an
  {
    an.Sound() && (an.est <==> an.cfd in w.ans && w.ans[an.cfd] == an)
  }
}
