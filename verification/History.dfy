/** What happened in a run, seen from outside, with the moment at which each call took effect. */
module History {
  import opened Model
  import opened Tables
  import opened Registry
  import opened Sorting

  datatype Event =
    | Invoked(id: CallId, call: Call)
    | Took(id: CallId, call: Call, reply: Reply)
    | Returned(id: CallId, reply: Reply)

  const LostConnection := Failed(Database)

  /** A reply that goes with no change to the registry. */
  predicate Passive(c: CallId, reply: Reply) {
    reply.Failed? || (reply.Recorded? && reply.record.id != VersionId(c))
  }

  /** `e` may follow `h`. */
  ghost predicate MayFollow(h: seq<Event>, e: Event) {
    match e
    case Invoked(c, _) => forall x | x in h :: x.id != c
    case Took(c, call, reply) => Invoked(c, call) in h && forall x | x in h :: x.id == c ==> x.Invoked?
    case Returned(c, reply) =>
      && (forall x | x in h :: x.id == c ==> !x.Returned?)
      && (exists call :: Invoked(c, call) in h)
      && (reply != LostConnection ==> exists call :: Took(c, call, reply) in h)
      && (reply == LostConnection ==> forall x | x in h && x.Took? && x.id == c :: Passive(c, x.reply))
  }

  /** Each call is invoked once, then takes effect at most once, then returns at most once. */
  ghost predicate Proper(h: seq<Event>) {
    h == [] || (Proper(h[..|h| - 1]) && MayFollow(h[..|h| - 1], h[|h| - 1]))
  }

  lemma {:induction false} ProperPrefix(h: seq<Event>, n: nat)
    requires Proper(h) && n <= |h|
    ensures Proper(h[..n])
    ensures n < |h| ==> MayFollow(h[..n], h[n])
  {
    if n < |h| {
      var front := h[..|h| - 1];
      assert front[..n] == h[..n];
      if n < |h| - 1 {
        ProperPrefix(front, n);
      }
    } else {
      assert h[..n] == h;
    }
  }

  lemma ProperSnoc(h: seq<Event>, e: Event)
    requires Proper(h) && MayFollow(h, e)
    ensures Proper(h + [e])
  {
  }

  // ----- replaying calls one at a time

  ghost predicate AllTook(points: seq<Event>) {
    forall e | e in points :: e.Took?
  }

  /** The registry after performing the calls one after another. */
  ghost function Replay(points: seq<Event>): Registry
    requires AllTook(points)
  {
    if points == [] then Initial
    else
      var n := |points| - 1;
      Perform(Replay(points[..n]), points[n].id, points[n].call).0
  }

  /** Each call, performed in turn, gives the reply it was given. */
  ghost predicate Legal(points: seq<Event>)
    requires AllTook(points)
  {
    points == [] ||
    (var n := |points| - 1;
     && Legal(points[..n])
     && Perform(Replay(points[..n]), points[n].id, points[n].call).1 == points[n].reply)
  }

  lemma ReplaySnoc(points: seq<Event>, e: Event)
    requires AllTook(points) && e.Took?
    ensures Replay(points + [e]) == Perform(Replay(points), e.id, e.call).0
    ensures Legal(points + [e]) <==> Legal(points) && Perform(Replay(points), e.id, e.call).1 == e.reply
  {
  }

  function Points(h: seq<Event>): seq<Event> {
    Filter((e: Event) => e.Took?, h)
  }

  /** `e` marks a call whose caller was told, in `all`, what `e` says. */
  predicate Confirmed(all: seq<Event>, e: Event) {
    e.Took? && Returned(e.id, e.reply) in all
  }

  /** The calls that took effect and told their caller so, in the order they took effect. */
  function Order(h: seq<Event>, all: seq<Event>): seq<Event> {
    Filter((e: Event) => Confirmed(all, e), h)
  }

  lemma PointsSnoc(h: seq<Event>, e: Event)
    ensures Points(h + [e]) == Points(h) + if e.Took? then [e] else []
  {
    FilterConcat((x: Event) => x.Took?, h, [e]);
  }

  lemma OrderSnoc(h: seq<Event>, all: seq<Event>, e: Event)
    ensures Order(h + [e], all) == Order(h, all) + if Confirmed(all, e) then [e] else []
  {
    FilterConcat((x: Event) => Confirmed(all, x), h, [e]);
  }

  /** A call that took effect and has not (or not truthfully) returned has changed nothing. */
  ghost predicate Settled(h: seq<Event>, all: seq<Event>) {
    forall e | e in h && e.Took? :: Passive(e.id, e.reply) || Returned(e.id, e.reply) in all
  }

  lemma PassiveChangesNothing(reg: Registry, c: CallId, call: Call)
    requires Passive(c, Perform(reg, c, call).1)
    ensures Perform(reg, c, call).0 == reg
  {
  }

  /** One more event: counted in both, in one where it changed nothing, or in neither. */
  lemma OrderReplaysSnoc(points: seq<Event>, order: seq<Event>, e: Event, confirmed: bool)
    requires AllTook(points) && AllTook(order) && e.Took? && (confirmed || Passive(e.id, e.reply))
    requires Legal(points + [e]) && Legal(order) && Replay(order) == Replay(points)
    ensures var next := order + if confirmed then [e] else [];
      Legal(next) && Replay(next) == Replay(points + [e])
  {
    ReplaySnoc(points, e);
    ReplaySnoc(order, e);
    assert order + [] == order;
    if !confirmed {
      PassiveChangesNothing(Replay(points), e.id, e.call);
    }
  }

  /** Leaving out calls that changed nothing changes neither the registry nor the other replies. */
  lemma {:induction false} OrderReplays(h: seq<Event>, all: seq<Event>)
    requires Settled(h, all) && Legal(Points(h))
    ensures Legal(Order(h, all)) && Replay(Order(h, all)) == Replay(Points(h))
  {
    if h != [] {
      var n := |h| - 1;
      var front, e := h[..n], h[n];
      assert h == front + [e];
      PointsSnoc(front, e);
      OrderSnoc(front, all, e);
      assert Points(front) + [] == Points(front) && Order(front, all) + [] == Order(front, all);
      if e.Took? {
        ReplaySnoc(Points(front), e);
        OrderReplays(front, all);
        OrderReplaysSnoc(Points(front), Order(front, all), e, Confirmed(all, e));
      } else {
        OrderReplays(front, all);
      }
    }
  }

  // ----- linearizability

  predicate ReturnsBefore(h: seq<Event>, b: CallId, a: CallId) {
    exists q, r | 0 <= q < r < |h| :: IsReturn(h, q, b) && IsInvoke(h, r, a)
  }

  predicate IsReturn(h: seq<Event>, q: int, c: CallId) {
    0 <= q < |h| && h[q].Returned? && h[q].id == c
  }

  predicate IsInvoke(h: seq<Event>, r: int, c: CallId) {
    0 <= r < |h| && h[r].Invoked? && h[r].id == c
  }

  /**
   * `order` explains the history `h` as a one-at-a-time execution that ends in the tables `db`: it holds
   * exactly the calls that returned something other than a database error, performing them in turn gives
   * each the reply it returned, and a call that returned before another was made comes earlier.
   */
  ghost predicate Linearizes(h: seq<Event>, order: seq<Event>, db: Tables) {
    && AllTook(order)
    && (forall e | e in order :: Returned(e.id, e.reply) in h && Invoked(e.id, e.call) in h && e.reply != LostConnection)
    && (forall c, reply | Returned(c, reply) in h && reply != LostConnection ::
          exists e :: e in order && e.id == c && e.reply == reply)
    && (forall i, j | 0 <= i < j < |order| :: order[i].id != order[j].id)
    && Legal(order) && Represents(db, Replay(order))
    && (forall i, j | 0 <= i < |order| && 0 <= j < |order| && ReturnsBefore(h, order[j].id, order[i].id) :: j < i)
  }

  lemma OrderMembers(h: seq<Event>, all: seq<Event>, e: Event)
    ensures e in Order(h, all) <==> e in h && Confirmed(all, e)
  {
    FilterKeeps((x: Event) => Confirmed(all, x), h, e);
    assert e in Order(h, all) <==> e in multiset(Order(h, all));
    assert e in h <==> e in multiset(h);
  }

  lemma {:induction false} OrderDistinct(h: seq<Event>, all: seq<Event>)
    requires Proper(h)
    ensures forall i, j | 0 <= i < j < |Order(h, all)| :: Order(h, all)[i].id != Order(h, all)[j].id
  {
    if h != [] {
      var n := |h| - 1;
      var front, e := h[..n], h[n];
      assert h == front + [e];
      OrderSnoc(front, all, e);
      OrderDistinct(front, all);
      if Confirmed(all, e) {
        forall x | x in Order(front, all) ensures x.id != e.id {
          OrderMembers(front, all, x);
        }
      }
    }
  }

  lemma TookAfterInvoked(h: seq<Event>, r: nat, e: Event)
    requires Proper(h) && IsInvoke(h, r, e.id) && e.Took?
    ensures e !in h[..r]
  {
  }

  lemma TookBeforeReturned(h: seq<Event>, q: nat, k: nat, e: Event)
    requires Proper(h) && IsReturn(h, q, e.id) && e.Took? && k < |h| && h[k] == e
    ensures k < q
  {
  }

  /** A call that returned before another was made precedes it in the order. */
  lemma RealTime(h: seq<Event>, i: nat, j: nat)
    requires Proper(h)
    requires i < |Order(h, h)| && j < |Order(h, h)|
    requires ReturnsBefore(h, Order(h, h)[j].id, Order(h, h)[i].id)
    ensures j < i
  {
    var a, b := Order(h, h)[i], Order(h, h)[j];
    var q, r :| 0 <= q < r < |h| && IsReturn(h, q, b.id) && IsInvoke(h, r, a.id);
    var early, late := Order(h[..r], h), Order(h[r..], h);
    assert Order(h, h) == early + late by {
      FilterConcat((x: Event) => Confirmed(h, x), h[..r], h[r..]);
      assert h == h[..r] + h[r..];
    }
    assert a !in early by {
      OrderMembers(h, h, a);
      OrderMembers(h[..r], h, a);
      TookAfterInvoked(h, r, a);
    }
    assert b !in late by {
      OrderMembers(h, h, b);
      OrderMembers(h[r..], h, b);
      if b in h[r..] {
        var k :| r <= k < |h| && h[k] == b;
        TookBeforeReturned(h, q, k, b);
      }
    }
  }

  lemma ProperReturn(h: seq<Event>, c: CallId, reply: Reply)
    requires Proper(h) && Returned(c, reply) in h && reply != LostConnection
    ensures exists call :: Took(c, call, reply) in h && Invoked(c, call) in h
  {
    var k :| 0 <= k < |h| && h[k] == Returned(c, reply);
    ProperPrefix(h, k);
    var call :| Took(c, call, reply) in h[..k];
    ProperTook(h, c, call, reply);
  }

  lemma ProperTook(h: seq<Event>, c: CallId, call: Call, reply: Reply)
    requires Proper(h) && Took(c, call, reply) in h
    ensures Invoked(c, call) in h
  {
  }

  /** From a proper history to its linearization. */
  lemma OrderLinearizes(h: seq<Event>, db: Tables)
    requires Proper(h) && Settled(h, h)
    requires Legal(Points(h)) && Represents(db, Replay(Points(h)))
    requires forall e | e in h && e.Took? :: e.reply != LostConnection
    ensures Linearizes(h, Order(h, h), db)
  {
    var order := Order(h, h);
    OrderReplays(h, h);
    OrderDistinct(h, h);
    forall e | e in order ensures Invoked(e.id, e.call) in h && e.reply != LostConnection {
      OrderMembers(h, h, e);
      ProperTook(h, e.id, e.call, e.reply);
    }
    forall c, reply | Returned(c, reply) in h && reply != LostConnection
      ensures exists e :: e in order && e.id == c && e.reply == reply
    {
      ProperReturn(h, c, reply);
      var call :| Took(c, call, reply) in h;
      OrderMembers(h, h, Took(c, call, reply));
    }
    forall i, j | 0 <= i < |order| && 0 <= j < |order| && ReturnsBefore(h, order[j].id, order[i].id) ensures j < i {
      RealTime(h, i, j);
    }
  }
}
