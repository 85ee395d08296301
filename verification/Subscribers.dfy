/** The index of subscriptions on one worker: a list of subscribers for every path. */
module Subscribers {
  import opened Actors

  datatype Op = Subscribe(an: Conn, path: string, sid: nat) | UnSubscribe(an: Conn)

  type Index = map<string, seq<Sub>>

  function Listed(m: Index, path: string): seq<Sub> { if path in m then m[path] else [] }

  function Without(li: seq<Sub>, an: Conn): seq<Sub> {
    if li == [] then [] else (if li[0].an == an then [] else [li[0]]) + Without(li[1..], an)
  }

  function Apply(m: Index, op: Op): Index {
    match op
    case Subscribe(an, path, sid) => m[path := Listed(m, path) + [Sub(an, sid)]]
    case UnSubscribe(an) => map p | p in m :: Without(m[p], an)
  }

  function Replay(m: Index, ops: seq<Op>): Index
    decreases |ops|
  {
    if ops == [] then m else Replay(Apply(m, ops[0]), ops[1..])
  }

  // ------------------------------------------------------------------ the relation

  predicate Withdrawn(ops: seq<Op>, an: Conn) {
    if ops == [] then false else ops[0] == UnSubscribe(an) || Withdrawn(ops[1..], an)
  }

  /** The subscriptions to a path, in order, that their connection did not withdraw later. */
  function Standing(ops: seq<Op>, path: string): seq<Sub> {
    if ops == [] then []
    else
      (if ops[0].Subscribe? && ops[0].path == path && !Withdrawn(ops[1..], ops[0].an)
       then [Sub(ops[0].an, ops[0].sid)] else []) + Standing(ops[1..], path)
  }

  function Kept(li: seq<Sub>, ops: seq<Op>): seq<Sub> {
    if li == [] then [] else (if Withdrawn(ops, li[0].an) then [] else [li[0]]) + Kept(li[1..], ops)
  }

  lemma {:induction false} KeptSnoc(li: seq<Sub>, s: Sub, ops: seq<Op>)
    ensures Kept(li + [s], ops) == Kept(li, ops) + if Withdrawn(ops, s.an) then [] else [s]
  {
    if li == [] {
      assert [s][1..] == [] && [] + [s] == [s];
    } else {
      assert (li + [s])[1..] == li[1..] + [s];
      KeptSnoc(li[1..], s, ops);
    }
  }

  lemma {:induction false} KeptAll(li: seq<Sub>)
    ensures Kept(li, []) == li
  {
    if li != [] { KeptAll(li[1..]); }
  }

  lemma {:induction false} KeptStep(li: seq<Sub>, ops: seq<Op>)
    requires ops != []
    ensures Kept(li, ops) == Kept(if ops[0].UnSubscribe? then Without(li, ops[0].an) else li, ops[1..])
  {
    if li != [] {
      KeptStep(li[1..], ops);
      if ops[0].UnSubscribe? && li[0].an != ops[0].an {
        assert ([li[0]] + Without(li[1..], ops[0].an))[1..] == Without(li[1..], ops[0].an);
      } else if ops[0].UnSubscribe? {
        assert [] + Without(li[1..], ops[0].an) == Without(li[1..], ops[0].an);
      }
    }
  }

  /** The first operation of a history, on the list of one path. */
  lemma FirstOp(m: Index, ops: seq<Op>, path: string)
    requires ops != []
    ensures Kept(Listed(Apply(m, ops[0]), path), ops[1..]) + Standing(ops[1..], path)
         == Kept(Listed(m, path), ops) + Standing(ops, path)
  {
    var li := Listed(m, path);
    KeptStep(li, ops);
    if ops[0].Subscribe? && ops[0].path == path {
      FirstSubscribe(li, ops, path);
    } else {
      assert Listed(Apply(m, ops[0]), path) == if ops[0].UnSubscribe? then Without(li, ops[0].an) else li;
      assert [] + Standing(ops[1..], path) == Standing(ops[1..], path);
    }
  }

  lemma FirstSubscribe(li: seq<Sub>, ops: seq<Op>, path: string)
    requires ops != [] && ops[0].Subscribe? && ops[0].path == path
    ensures Kept(li + [Sub(ops[0].an, ops[0].sid)], ops[1..]) + Standing(ops[1..], path)
         == Kept(li, ops[1..]) + Standing(ops, path)
  {
    var s := Sub(ops[0].an, ops[0].sid);
    KeptSnoc(li, s, ops[1..]);
    var one := if Withdrawn(ops[1..], s.an) then [] else [s];
    assert Standing(ops, path) == one + Standing(ops[1..], path);
    assert Kept(li, ops[1..]) + one + Standing(ops[1..], path) == Kept(li, ops[1..]) + (one + Standing(ops[1..], path));
  }

  lemma {:induction false} ReplayStanding(m: Index, ops: seq<Op>, path: string)
    ensures Listed(Replay(m, ops), path) == Kept(Listed(m, path), ops) + Standing(ops, path)
    decreases |ops|
  {
    if ops == [] {
      KeptAll(Listed(m, path));
    } else {
      ReplayStanding(Apply(m, ops[0]), ops[1..], path);
      FirstOp(m, ops, path);
    }
  }

  /** After any history of a worker, the list of a path is the list of its standing subscriptions. */
  lemma IndexIsRelation(ops: seq<Op>, path: string)
    ensures Listed(Replay(map[], ops), path) == Standing(ops, path)
  {
    ReplayStanding(map[], ops, path);
    assert Kept([], ops) == [];
  }

  // ------------------------------------------------------------------ the methods

  method SubscribeTo(w: Fworker, an: Conn, path: string, sid: nat)
    modifies w`subscribers
    ensures w.subscribers == Apply(old(w.subscribers), Subscribe(an, path, sid))
  {
    if path !in w.subscribers {
      w.subscribers := w.subscribers[path := [Sub(an, sid)]];
      assert [] + [Sub(an, sid)] == [Sub(an, sid)];
      return;
    }
    w.subscribers := w.subscribers[path := w.subscribers[path] + [Sub(an, sid)]];
  }

  lemma {:induction false} WithoutAppend(a: seq<Sub>, b: seq<Sub>, an: Conn)
    ensures Without(a + b, an) == Without(a, an) + Without(b, an)
  {
    if a == [] {
      assert a + b == b;
    } else {
      assert (a + b)[1..] == a[1..] + b;
      WithoutAppend(a[1..], b, an);
    }
  }

  /** Erasing the element at `i`, which is withdrawn, or stepping over it, which is not. */
  lemma WithoutAt(li: seq<Sub>, i: nat, an: Conn)
    requires i < |li| && Without(li[..i], an) == li[..i]
    ensures li[i].an == an ==> Without(li[..i] + li[i + 1..], an) == Without(li, an)
    ensures li[i].an != an ==> Without(li[..i + 1], an) == li[..i + 1]
  {
    assert li == li[..i] + ([li[i]] + li[i + 1..]) && li[..i + 1] == li[..i] + [li[i]];
    assert ([li[i]] + li[i + 1..])[1..] == li[i + 1..] && [li[i]][1..] == [];
    WithoutAppend(li[..i], [li[i]] + li[i + 1..], an);
    WithoutAppend(li[..i], li[i + 1..], an);
    WithoutAppend(li[..i], [li[i]], an);
  }

  /** One list, with erasing during the iteration. */
  method EraseFrom(all: seq<Sub>, an: Conn) returns (li: seq<Sub>)
    ensures li == Without(all, an)
  {
    li := all;
    var i := 0;
    while i < |li|
      invariant 0 <= i <= |li| && Without(li, an) == Without(all, an) && Without(li[..i], an) == li[..i]
      decreases |li| - i
    {
      WithoutAt(li, i, an);
      if li[i].an == an {
        ghost var front := li[..i];
        li := li[..i] + li[i + 1..];
        assert li[..i] == front;
      } else {
        i := i + 1;
      }
    }
    assert li[..i] == li;
  }

  method UnSubscribeAll(w: Fworker, an: Conn)
    modifies w`subscribers
    ensures w.subscribers == Apply(old(w.subscribers), UnSubscribe(an))
  {
    ghost var m := w.subscribers;
    var paths := w.subscribers.Keys;
    while paths != {}
      invariant w.subscribers.Keys == m.Keys && paths <= m.Keys
      invariant forall p | p in m :: w.subscribers[p] == if p in paths then m[p] else Without(m[p], an)
      decreases |paths|
    {
      var p :| p in paths;
      paths := paths - {p};
      if w.subscribers[p] != [] {
        var li := EraseFrom(w.subscribers[p], an);
        w.subscribers := w.subscribers[p := li];
      }
    }
  }
}
