/** The lambda of one worker that sends a published message to its subscribers. A connection may be
    subscribed any number of times and may be lost by any of the sends. */
module Publish {
  import opened Lifetimes
  import opened Actors
  import opened Dispatch
  import opened Subscribers

  function Times(li: seq<Sub>, an: Conn): nat {
    if li == [] then 0 else (if li[0].an == an then 1 else 0) + Times(li[1..], an)
  }

  lemma {:induction false} TimesAppend(a: seq<Sub>, b: seq<Sub>, an: Conn)
    ensures Times(a + b, an) == Times(a, an) + Times(b, an)
  {
    if a == [] {
      assert a + b == b;
    } else {
      assert (a + b)[1..] == a[1..] + b;
      TimesAppend(a[1..], b, an);
    }
  }

  lemma TimesSplit(li: seq<Sub>, i: nat, an: Conn)
    requires i < |li|
    ensures Times(li[i..], an) == (if li[i].an == an then 1 else 0) + Times(li[i + 1..], an)
    ensures Times(li[..i + 1], an) == Times(li[..i], an) + (if li[i].an == an then 1 else 0)
  {
    assert li[i..][1..] == li[i + 1..];
    assert li[..i + 1] == li[..i] + [li[i]];
    TimesAppend(li[..i], [li[i]], an);
    assert [li[i]][1..] == [];
  }

  ghost predicate Within(li: seq<Sub>, all: set<Conn>) {
    forall i | 0 <= i < |li| :: li[i].an in all
  }

  /** What a publication touches of a connection: its life and its transaction number. */
  datatype View = View(life: Life, tid: int)

  ghost function ViewOf(an: Conn): View
    reads an
  {
    View(an.Abs(), an.tid)
  }

  ghost function Views(all: set<Conn>): map<Conn, View>
    reads all
  {
    map an | an in all :: ViewOf(an)
  }

  /** What `sent` sends do to a subscriber: one pin less and one transaction number more for each, and,
      unless all went well, the connection fails. */
  function Sent(v: View, sent: nat, well: bool): View {
    var l := if well then v.life else After(v.life, Fail);
    View(l.(rc := v.life.rc - sent), v.tid + sent)
  }

  lemma SentOneMore(v: View, sent: nat, well: bool, fails: bool)
    ensures Sent(Sent(v, sent, well), 1, !fails) == Sent(v, sent + 1, well && !fails)
  {
  }

  /** The view with `n` more references. */
  function Held(v: View, n: int): View {
    v.(life := v.life.(rc := v.life.rc + n))
  }

  /** Each object is as it was in `start` but for one more reference per entry of `li`. */
  ghost predicate Pinned(li: seq<Sub>, start: map<Conn, View>)
    reads start.Keys
  {
    forall an | an in start :: ViewOf(an) == Held(start[an], Times(li, an))
  }

  /** The connections of the entries have not been deleted. */
  ghost predicate Live(li: seq<Sub>, start: map<Conn, View>) {
    forall i | 0 <= i < |li| :: li[i].an in start && start[li[i].an].life.Alive()
  }

  method PinOne(w: Fworker, an: Conn, ghost all: set<Conn>)
    requires Ready(w, all) && an in all && an.alive
    modifies an`rc
    ensures Ready(w, all) && an.Abs() == After(old(an.Abs()), Pin)
  {
    an.Ref();
  }

  lemma PinnedNext(li: seq<Sub>, s: Sub, an: Conn)
    ensures Times(li + [s], an) == Times(li, an) + if s.an == an then 1 else 0
  {
    TimesAppend(li, [s], an);
    assert [s][1..] == [];
  }

  /** Entry `i` is pinned and copied. */
  method PinNext(w: Fworker, li: seq<Sub>, subs: seq<Sub>, i: nat, ghost start: map<Conn, View>)
    returns (pinned: seq<Sub>)
    requires Ready(w, start.Keys) && Live(subs, start) && i < |subs| && Pinned(li, start)
    modifies subs[i].an`rc
    ensures Ready(w, start.Keys) && pinned == li + [subs[i]] && Pinned(pinned, start)
  {
    var s := subs[i];
    forall an | an in start ensures Times(li + [s], an) == Times(li, an) + if s.an == an then 1 else 0 {
      PinnedNext(li, s, an);
    }
    assert s.an.Abs() == Held(start[s.an], Times(li, s.an)).life;
    PinOne(w, s.an, start.Keys);
    pinned := li + [s];
  }

  /** One reference per entry of `subs`; the entries are copied behind `li`. */
  method PinEach(w: Fworker, li: seq<Sub>, subs: seq<Sub>, ghost start: map<Conn, View>) returns (pinned: seq<Sub>)
    requires Ready(w, start.Keys) && Live(subs, start) && Pinned(li, start)
    modifies start.Keys`rc
    ensures Ready(w, start.Keys) && pinned == li + subs && Pinned(pinned, start)
  {
    pinned := li;
    for i := 0 to |subs|
      invariant Ready(w, start.Keys) && Pinned(pinned, start)
      invariant pinned == li + subs[..i]
    {
      assert li + subs[..i] + [subs[i]] == li + subs[..i + 1];
      pinned := PinNext(w, pinned, subs, i, start);
    }
    assert subs[..|subs|] == subs;
  }

  /** The entries listed under `path`, if there is a list. */
  method PinListed(w: Fworker, li: seq<Sub>, path: string, ghost start: map<Conn, View>) returns (pinned: seq<Sub>)
    requires Ready(w, start.Keys) && Live(Listed(w.subscribers, path), start) && Pinned(li, start)
    modifies start.Keys`rc
    ensures Ready(w, start.Keys) && pinned == li + Listed(w.subscribers, path) && Pinned(pinned, start)
  {
    if path in w.subscribers {
      pinned := PinEach(w, li, w.subscribers[path], start);
    } else {
      pinned := li;
    }
  }

  /** The send to one subscriber and the release of its pin; `fails` says whether the send, if there is a
      connection to send on, loses it. */
  method SendOne(w: Fworker, s: Sub, fails: bool, ghost all: set<Conn>)
    requires Ready(w, all) && s.an in all && s.an.rc >= 1
    modifies w`ans, w`closed, w`attempts, s.an
    ensures Ready(w, all)
    ensures w.attempts == old(w.attempts) + [Attempt(s, s.an.tid)]
    ensures ViewOf(s.an) == Sent(old(ViewOf(s.an)), 1, !fails)
  {
    SentOnce(ViewOf(s.an), !fails);
    CountUp(w, s, all);
    Conclude(w, s.an, !fails, all);
  }

  lemma SentOnce(v: View, well: bool)
    requires v.life.rc >= 1
    ensures Failed(v.life, well).Alive()
    ensures Sent(v, 1, well) == View(Ended(v.life, true, well), v.tid + 1)
  {
  }

  /** The next transaction number, and the attempt under it. */
  method CountUp(w: Fworker, s: Sub, ghost all: set<Conn>)
    requires Ready(w, all) && s.an in all && s.an.alive
    modifies w`attempts, s.an`tid
    ensures Ready(w, all) && s.an.tid == old(s.an.tid) + 1 && s.an.Abs() == old(s.an.Abs())
    ensures w.attempts == old(w.attempts) + [Attempt(s, s.an.tid)]
  {
    var an := s.an;
    an.tid := an.tid + 1;
    w.attempts := w.attempts + [Attempt(s, an.tid)];
  }

  /** No send to `an` fails: the sends fail by their position in the list. */
  predicate AllWell(li: seq<Sub>, fails: nat -> bool, an: Conn) {
    if li == [] then true
    else AllWell(li[..|li| - 1], fails, an) && (li[|li| - 1].an == an ==> !fails(|li| - 1))
  }

  /** A subscriber after all sends of `li`. */
  function AfterAll(v: View, li: seq<Sub>, fails: nat -> bool, an: Conn): View {
    Sent(v, Times(li, an), AllWell(li, fails, an))
  }

  /** Every entry is attempted once, in order, under the number its connection had, counted on once for
      each of its entries so far. */
  function Attempts(li: seq<Sub>, start: map<Conn, View>): seq<Attempt>
    requires forall i | 0 <= i < |li| :: li[i].an in start
  {
    if li == [] then []
    else
      var last := li[|li| - 1];
      Attempts(li[..|li| - 1], start) + [Attempt(last, start[last.an].tid + Times(li, last.an))]
  }

  /** The view after entry `i`. */
  function NextView(v: View, li: seq<Sub>, i: nat, fails: nat -> bool, an: Conn): View
    requires i < |li|
  {
    var before := AfterAll(v, li[..i], fails, an);
    if li[i].an == an then Sent(before, 1, !fails(i)) else before
  }

  /** What entry `i` adds for each connection. */
  lemma OneMore(li: seq<Sub>, i: nat, fails: nat -> bool, an: Conn, v: View)
    requires i < |li|
    ensures AfterAll(v, li[..i + 1], fails, an) == NextView(v, li, i, fails, an)
    ensures Times(li[..i + 1], an) <= Times(li, an)
  {
    TimesSplit(li, i, an);
    assert li[..i + 1][..i] == li[..i];
    TimesAppend(li[..i + 1], li[i + 1..], an);
    assert li[..i + 1] + li[i + 1..] == li;
    SentOneMore(v, Times(li[..i], an), AllWell(li[..i], fails, an), fails(i));
  }

  lemma AttemptsOneMore(li: seq<Sub>, i: nat, start: map<Conn, View>)
    requires i < |li| && forall k | 0 <= k < |li| :: li[k].an in start
    ensures Attempts(li[..i + 1], start)
         == Attempts(li[..i], start) + [Attempt(li[i], start[li[i].an].tid + Times(li[..i + 1], li[i].an))]
  {
    assert li[..i + 1][..i] == li[..i];
  }

  lemma {:induction false} AttemptsAt(li: seq<Sub>, start: map<Conn, View>, i: nat)
    requires i < |li| && forall k | 0 <= k < |li| :: li[k].an in start
    ensures |Attempts(li, start)| == |li|
    ensures Attempts(li, start)[i] == Attempt(li[i], start[li[i].an].tid + Times(li[..i + 1], li[i].an))
    decreases |li|
  {
    var front := li[..|li| - 1];
    assert forall k | 0 <= k < |front| :: front[k] == li[k];
    if i < |front| {
      AttemptsAt(front, start, i);
      assert front[..i + 1] == li[..i + 1];
    } else {
      if front != [] { AttemptsAt(front, start, 0); }
      assert li[..i + 1] == li;
    }
  }

  /** One publication never uses a transaction id of a connection twice. */
  lemma IdsIncrease(li: seq<Sub>, start: map<Conn, View>, i: nat, j: nat)
    requires i < j < |li| && li[i].an == li[j].an && forall k | 0 <= k < |li| :: li[k].an in start
    ensures |Attempts(li, start)| == |li| && Attempts(li, start)[i].stid < Attempts(li, start)[j].stid
  {
    AttemptsAt(li, start, i);
    AttemptsAt(li, start, j);
    TimesSplit(li, j, li[j].an);
    TimesAppend(li[..i + 1], li[i + 1..j], li[j].an);
    assert li[..i + 1] + li[i + 1..j] == li[..j];
  }

  function ViewIn(start: map<Conn, View>, an: Conn): View {
    if an in start then start[an] else View(ESTABLISHED, 0)
  }

  /** What each subscriber is when the entries of `li` have been sent. */
  function UpTo(start: map<Conn, View>, li: seq<Sub>, fails: nat -> bool): Conn -> View {
    (an: Conn) => AfterAll(ViewIn(start, an), li, fails, an)
  }

  /** The connections are as `v` says. */
  ghost predicate Are(all: set<Conn>, v: Conn -> View)
    reads all
  {
    forall an | an in all :: ViewOf(an) == v(an)
  }

  /** Entries `0..i` of the snapshot have been sent. */
  ghost predicate SentUpTo(li: seq<Sub>, i: nat, fails: nat -> bool, start: map<Conn, View>)
    requires i <= |li|
    reads start.Keys
  {
    Are(start.Keys, UpTo(start, li[..i], fails))
  }

  method SendOneOf(w: Fworker, s: Sub, fails: bool, ghost all: set<Conn>,
                   ghost now: Conn -> View, ghost next: Conn -> View)
    requires Ready(w, all) && s.an in all && now(s.an).life.rc >= 1 && Are(all, now)
    requires forall an | an in all :: next(an) == if an == s.an then Sent(now(an), 1, !fails) else now(an)
    modifies w`ans, w`closed, w`attempts, s.an
    ensures Ready(w, all) && Are(all, next)
    ensures w.attempts == old(w.attempts) + [Attempt(s, next(s.an).tid)]
  {
    SendOne(w, s, fails, all);
  }

  /** Entry `i` is sent while every subscriber is referred to at least once for each of its entries not
      yet sent, so none is deleted before its last one is through. */
  method SendEntry(w: Fworker, li: seq<Sub>, i: nat, fails: nat -> bool, ghost start: map<Conn, View>)
    requires Ready(w, start.Keys) && i < |li| && li[i].an in start
    requires SentUpTo(li, i, fails, start)
    requires forall an | an in start :: start[an].life.rc >= Times(li, an)
    modifies w`ans, w`closed, w`attempts, li[i].an
    ensures Ready(w, start.Keys) && SentUpTo(li, i + 1, fails, start)
    ensures w.attempts == old(w.attempts) + [Attempt(li[i], start[li[i].an].tid + Times(li[..i + 1], li[i].an))]
  {
    ghost var all, now, next := start.Keys, UpTo(start, li[..i], fails), UpTo(start, li[..i + 1], fails);
    UpToNext(start, li, i, fails);
    SendOneOf(w, li[i], fails(i), all, now, next);
  }

  lemma UpToNext(start: map<Conn, View>, li: seq<Sub>, i: nat, fails: nat -> bool)
    requires i < |li| && li[i].an in start && forall an | an in start :: start[an].life.rc >= Times(li, an)
    ensures var now, next := UpTo(start, li[..i], fails), UpTo(start, li[..i + 1], fails);
      && (forall an | an in start :: next(an) == if an == li[i].an then Sent(now(an), 1, !fails(i)) else now(an))
      && now(li[i].an).life.rc >= 1
      && next(li[i].an).tid == start[li[i].an].tid + Times(li[..i + 1], li[i].an)
  {
    forall an | an in start
      ensures AfterAll(start[an], li[..i + 1], fails, an) == NextView(start[an], li, i, fails, an)
    {
      OneMore(li, i, fails, an, start[an]);
    }
    OneMore(li, i, fails, li[i].an, start[li[i].an]);
    TimesSplit(li, i, li[i].an);
  }

  /** The loop over the snapshot. */
  method SendAll(w: Fworker, li: seq<Sub>, fails: nat -> bool, ghost start: map<Conn, View>)
    requires Ready(w, start.Keys) && Within(li, start.Keys) && SentUpTo(li, 0, fails, start)
    requires forall an | an in start :: start[an].life.rc >= Times(li, an)
    modifies w`ans, w`closed, w`attempts, start.Keys
    ensures Ready(w, start.Keys) && w.attempts == old(w.attempts) + Attempts(li, start)
    ensures SentUpTo(li, |li|, fails, start)
  {
    ghost var before := w.attempts;
    for i := 0 to |li|
      invariant Ready(w, start.Keys) && SentUpTo(li, i, fails, start)
      invariant w.attempts == before + Attempts(li[..i], start)
    {
      SendNext(w, li, i, fails, start, before);
    }
    assert li[..|li|] == li;
  }

  method SendNext(w: Fworker, li: seq<Sub>, i: nat, fails: nat -> bool, ghost start: map<Conn, View>,
                  ghost before: seq<Attempt>)
    requires Ready(w, start.Keys) && i < |li| && Within(li, start.Keys) && SentUpTo(li, i, fails, start)
    requires forall an | an in start :: start[an].life.rc >= Times(li, an)
    requires w.attempts == before + Attempts(li[..i], start)
    modifies w`ans, w`closed, w`attempts, li[i].an
    ensures Ready(w, start.Keys) && SentUpTo(li, i + 1, fails, start)
    ensures w.attempts == before + Attempts(li[..i + 1], start)
  {
    AttemptsOneMore(li, i, start);
    SendEntry(w, li, i, fails, start);
  }

  /** A published message leaves a subscriber with the references it had, and otherwise as one failing
      send would have left it, or as it was. */
  function Published(v: View, li: seq<Sub>, fails: nat -> bool, an: Conn): View {
    View(if AllWell(li, fails, an) then v.life else After(v.life, Fail), v.tid + Times(li, an))
  }

  /** The recursion over the list is what it should be: no send of an entry of `an` fails. */
  lemma {:induction false} AllWellExactly(li: seq<Sub>, fails: nat -> bool, an: Conn)
    ensures AllWell(li, fails, an) <==> forall i | 0 <= i < |li| && li[i].an == an :: !fails(i)
  {
    if li != [] {
      var front := li[..|li| - 1];
      assert forall i | 0 <= i < |front| :: front[i] == li[i];
      AllWellExactly(front, fails, an);
    }
  }

  /** After a publication a connection is established exactly if it was and no send to it failed; one that
      failed, and was established, is marked and has been notified once. Its references are as before, its
      transaction number is one higher for each of its entries. */
  lemma PublishedComesTo(v: View, li: seq<Sub>, fails: nat -> bool, an: Conn)
    ensures var v', failed := Published(v, li, fails, an), exists i :: 0 <= i < |li| && li[i].an == an && fails(i);
      && (v'.life.est <==> v.life.est && !failed)
      && v'.life.rc == v.life.rc && v'.tid == v.tid + Times(li, an)
      && v'.life.notices == v.life.notices + (if v.life.est && failed then 1 else 0)
      && (v'.life.rf <==> v.life.rf || (v.life.est && failed))
  {
    AllWellExactly(li, fails, an);
  }

  function HeldAll(start: map<Conn, View>, li: seq<Sub>): map<Conn, View> {
    map an | an in start :: Held(start[an], Times(li, an))
  }

  /** Pinning does not change the ids. */
  lemma {:induction false} PinnedAttempts(li: seq<Sub>, a: map<Conn, View>, b: map<Conn, View>)
    requires forall i | 0 <= i < |li| :: li[i].an in a && li[i].an in b
    requires forall an | an in a && an in b :: a[an].tid == b[an].tid
    ensures Attempts(li, a) == Attempts(li, b)
  {
    if li != [] { PinnedAttempts(li[..|li| - 1], a, b); }
  }

  /** The pins are where the sends start, and do not change the ids; */
  lemma HeldStarts(start: map<Conn, View>, li: seq<Sub>, fails: nat -> bool)
    requires Within(li, start.Keys) && Pinned(li, start)
    ensures HeldAll(start, li).Keys == start.Keys
    ensures Attempts(li, HeldAll(start, li)) == Attempts(li, start)
    ensures SentUpTo(li, 0, fails, HeldAll(start, li))
  {
    PinnedAttempts(li, HeldAll(start, li), start);
    assert li[..0] == [];
  }

  lemma HeldReturned(v: View, li: seq<Sub>, fails: nat -> bool, an: Conn)
    ensures AfterAll(Held(v, Times(li, an)), li, fails, an) == Published(v, li, fails, an)
  {
  }

  /** the sends give them back. */
  lemma PinsReturned(start: map<Conn, View>, li: seq<Sub>, fails: nat -> bool)
    requires SentUpTo(li, |li|, fails, HeldAll(start, li))
    ensures forall an | an in start :: ViewOf(an) == Published(start[an], li, fails, an)
  {
    var held := HeldAll(start, li);
    assert li[..|li|] == li;
    forall an | an in start ensures ViewOf(an) == Published(start[an], li, fails, an) {
      assert an in held.Keys && ViewIn(held, an) == Held(start[an], Times(li, an));
      HeldReturned(start[an], li, fails, an);
    }
  }

  /** The entries under the root, then those under the path, one reference for each. */
  method Snapshot(w: Fworker, root: string, path: string, ghost start: map<Conn, View>) returns (li: seq<Sub>)
    requires Ready(w, start.Keys) && forall an | an in start :: ViewOf(an) == start[an]
    requires Live(Listed(w.subscribers, root), start) && Live(Listed(w.subscribers, path), start)
    modifies start.Keys`rc
    ensures Ready(w, start.Keys) && Pinned(li, start)
    ensures li == Listed(w.subscribers, root) + Listed(w.subscribers, path) && Within(li, start.Keys)
  {
    NoPins(start);
    LiveWithin(Listed(w.subscribers, root), Listed(w.subscribers, path), start);
    li := PinListed(w, [], root, start);
    li := PinListed(w, li, path, start);
  }

  lemma NoPins(start: map<Conn, View>)
    requires forall an | an in start :: ViewOf(an) == start[an]
    ensures Pinned([], start)
  {
  }

  lemma LiveWithin(a: seq<Sub>, b: seq<Sub>, start: map<Conn, View>)
    requires Live(a, start) && Live(b, start)
    ensures [] + a == a && Within(a + b, start.Keys)
  {
  }

  /** The connections one of whose sends fails. */
  function Failing(all: set<Conn>, li: seq<Sub>, fails: nat -> bool): set<Conn> {
    set an | an in all && !AllWell(li, fails, an)
  }

  /** For the lives of the connections a publication is one event. */
  lemma PublishedIsStep(all: set<Conn>, start: map<Conn, View>, ls: map<Conn, Life>, li: seq<Sub>, fails: nat -> bool)
    requires start.Keys == ls.Keys == all && forall an | an in all :: start[an].life == ls[an]
    ensures forall an | an in all ::
              Published(start[an], li, fails, an).life == Step(ls, Event.Publish(Failing(all, li, fails)))[an]
  {
    assert [Fail][1..] == [];
  }

  /** One worker's share of a publication: every entry under the root, then every entry under the path,
      is attempted once. If all subscribers are alive at the snapshot, each has the references it had and
      has been lost, marked and notified, once, exactly if it was established and one of its sends failed. */
  method PublishHere(w: Fworker, root: string, path: string, fails: nat -> bool, ghost all: set<Conn>)
    requires Ready(w, all)
    requires Live(Listed(w.subscribers, root), Views(all)) && Live(Listed(w.subscribers, path), Views(all))
    modifies w`ans, w`closed, w`attempts, all
    ensures Ready(w, all)
    ensures var li := Listed(w.subscribers, root) + Listed(w.subscribers, path);
      && w.attempts == old(w.attempts) + Attempts(li, old(Views(all)))
      && (forall an | an in all :: ViewOf(an) == Published(old(Views(all))[an], li, fails, an))
      && Lives(all) == Step(old(Lives(all)), Event.Publish(Failing(all, li, fails)))
  {
    ghost var li := Listed(w.subscribers, root) + Listed(w.subscribers, path);
    ghost var goal := Step(Lives(all), Event.Publish(Failing(all, li, fails)));
    PublishedIsStep(all, Views(all), Lives(all), li, fails);
    if root in w.subscribers || path in w.subscribers {
      PublishListed(w, root, path, fails, Views(all));
    }
    AreLives(all, goal);
  }

  method PublishListed(w: Fworker, root: string, path: string, fails: nat -> bool, ghost start: map<Conn, View>)
    requires Ready(w, start.Keys) && forall an | an in start :: ViewOf(an) == start[an]
    requires Live(Listed(w.subscribers, root), start) && Live(Listed(w.subscribers, path), start)
    modifies w`ans, w`closed, w`attempts, start.Keys
    ensures Ready(w, start.Keys)
    ensures var li := Listed(w.subscribers, root) + Listed(w.subscribers, path);
      && Within(li, start.Keys)
      && w.attempts == old(w.attempts) + Attempts(li, start)
      && forall an | an in start :: ViewOf(an) == Published(start[an], li, fails, an)
  {
    var li := Snapshot(w, root, path, start);
    HeldStarts(start, li, fails);
    SendAll(w, li, fails, HeldAll(start, li));
    PinsReturned(start, li, fails);
  }
}
