/** Subscriptions outlive their connections: what a publication needs of the history of the index. */
module StaleSubscribers {
  import opened Lifetimes
  import opened Actors
  import opened Subscribers
  import opened Publish

  /** Subscription `i` of a history was not withdrawn later. */
  predicate Stands(ops: seq<Op>, i: nat)
    requires i < |ops|
  {
    ops[i].Subscribe? && !Withdrawn(ops[i + 1..], ops[i].an)
  }

  /** No subscription that stands is one of a deleted connection. */
  ghost predicate NoneStale(ops: seq<Op>, start: map<Conn, View>) {
    forall i | 0 <= i < |ops| && Stands(ops, i) :: ops[i].an in start && start[ops[i].an].life.Alive()
  }

  lemma NoneStaleTail(ops: seq<Op>, start: map<Conn, View>)
    requires ops != []
    ensures NoneStale(ops, start) <==>
              (Stands(ops, 0) ==> ops[0].an in start && start[ops[0].an].life.Alive()) && NoneStale(ops[1..], start)
  {
    forall i | 0 <= i < |ops[1..]| ensures Stands(ops[1..], i) <==> Stands(ops, i + 1) {
      assert ops[1..][i + 1..] == ops[i + 2..];
    }
    if NoneStale(ops, start) {
      forall i | 0 <= i < |ops[1..]| && Stands(ops[1..], i)
        ensures ops[1..][i].an in start && start[ops[1..][i].an].life.Alive()
      {
        assert Stands(ops, i + 1);
      }
    }
    if (Stands(ops, 0) ==> ops[0].an in start && start[ops[0].an].life.Alive()) && NoneStale(ops[1..], start) {
      forall i | 0 <= i < |ops| && Stands(ops, i) ensures ops[i].an in start && start[ops[i].an].life.Alive() {
        if i > 0 { assert Stands(ops[1..], i - 1); }
      }
    }
  }

  lemma LiveCons(s: Sub, li: seq<Sub>, start: map<Conn, View>)
    ensures Live([s] + li, start) <==> s.an in start && start[s.an].life.Alive() && Live(li, start)
  {
    assert ([s] + li)[0] == s;
    assert forall i | 0 <= i < |li| :: li[i] == ([s] + li)[i + 1];
  }

  lemma {:induction false} StandingIsLive(ops: seq<Op>, start: map<Conn, View>, path: string)
    requires NoneStale(ops, start)
    ensures Live(Standing(ops, path), start)
  {
    if ops != [] {
      NoneStaleTail(ops, start);
      StandingIsLive(ops[1..], start, path);
      var li := Standing(ops[1..], path);
      if Stands(ops, 0) && ops[0].path == path {
        LiveCons(Sub(ops[0].an, ops[0].sid), li, start);
      } else {
        assert Standing(ops, path) == [] + li == li;
      }
    }
  }

  lemma {:induction false} LiveIsStanding(ops: seq<Op>, start: map<Conn, View>)
    requires forall path :: Live(Standing(ops, path), start)
    ensures NoneStale(ops, start)
  {
    if ops != [] {
      forall path ensures Live(Standing(ops[1..], path), start) {
        var li := Standing(ops[1..], path);
        assert Live(Standing(ops, path), start);
        if Stands(ops, 0) && ops[0].path == path {
          LiveCons(Sub(ops[0].an, ops[0].sid), li, start);
        } else {
          assert Standing(ops, path) == [] + li == li;
        }
      }
      LiveIsStanding(ops[1..], start);
      NoneStaleTail(ops, start);
      if Stands(ops, 0) {
        var s := Sub(ops[0].an, ops[0].sid);
        assert Live(Standing(ops, ops[0].path), start);
        LiveCons(s, Standing(ops[1..], ops[0].path), start);
      }
    }
  }

  /** After a history, a publication on `path` meets live subscribers only. */
  ghost predicate MeetsLive(ops: seq<Op>, path: string, start: map<Conn, View>) {
    Live(Listed(Replay(map[], ops), path), start)
  }

  /** A lost connection stays in the index until it withdraws. After any history, publications on all
      paths meet live subscribers only if and only if every connection that has been deleted withdrew
      after its last subscription. */
  lemma SafeToPublish(ops: seq<Op>, start: map<Conn, View>)
    ensures (forall path :: MeetsLive(ops, path, start)) <==> NoneStale(ops, start)
  {
    forall path ensures MeetsLive(ops, path, start) <==> Live(Standing(ops, path), start) {
      IndexIsRelation(ops, path);
    }
    if NoneStale(ops, start) {
      forall path ensures MeetsLive(ops, path, start) { StandingIsLive(ops, start, path); }
    }
    if forall path :: MeetsLive(ops, path, start) {
      forall path ensures Live(Standing(ops, path), start) { assert MeetsLive(ops, path, start); }
      LiveIsStanding(ops, start);
    }
  }
}
