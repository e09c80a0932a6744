/** The fan-out of client state changes (src/thinr/runtime/client_state_dispatcher.hpp)
    and the order the agent subscribes in (src/thinr/agent/agent.cpp:57-68). */
module StateDispatcher {

  /** An observer, by who registered it. */
  datatype Observer = Watchdog | Poller | Other(n: nat)
  datatype Entry = Entry(id: nat, obs: Observer)

  predicate Ordered(es: seq<Entry>, nextId: nat) {
    && (forall i :: 0 <= i < |es| ==> es[i].id < nextId)
    && (forall i, j :: 0 <= i < j < |es| ==> es[i].id < es[j].id)
  }

  function Without(es: seq<Entry>, id: nat): seq<Entry> {
    if es == [] then [] else if es[0].id == id then es[1..] else [es[0]] + Without(es[1..], id)
  }

  function Observers(es: seq<Entry>): seq<Observer> {
    seq(|es|, i requires 0 <= i < |es| => es[i].obs)
  }

  lemma {:induction false} WithoutMembers(es: seq<Entry>, id: nat, nextId: nat)
    requires Ordered(es, nextId)
    ensures forall e :: e in Without(es, id) <==> e in es && e.id != id
    decreases |es|
  {
    if es != [] {
      assert es == [es[0]] + es[1..];
      assert Ordered(es[1..], nextId);
      WithoutMembers(es[1..], id, nextId);
      assert forall e :: e in es[1..] ==> e.id > es[0].id;
    }
  }

  lemma {:induction false} WithoutKeepsOrder(es: seq<Entry>, id: nat, nextId: nat)
    requires Ordered(es, nextId)
    ensures Ordered(Without(es, id), nextId)
    ensures forall e :: e in Without(es, id) <==> e in es && e.id != id
    decreases |es|
  {
    WithoutMembers(es, id, nextId);
    if es != [] && es[0].id != id {
      WithoutKeepsOrder(es[1..], id, nextId);
      var w := Without(es[1..], id);
      forall i | 0 <= i < |w|
        ensures w[i].id > es[0].id
      {
        assert w[i] in w && w[i] in es[1..];
      }
      Prepended(es[0], w, nextId);
    }
  }

  lemma Prepended(e: Entry, w: seq<Entry>, nextId: nat)
    requires Ordered(w, nextId) && e.id < nextId && forall i :: 0 <= i < |w| ==> w[i].id > e.id
    ensures Ordered([e] + w, nextId)
  {
  }

  /** Removal passes over the entries before the first match. */
  lemma {:induction false} WithoutPrefix(es: seq<Entry>, id: nat, i: nat)
    requires i <= |es| && forall k :: 0 <= k < i ==> es[k].id != id
    ensures Without(es, id) == es[..i] + Without(es[i..], id)
    ensures i < |es| && es[i].id == id ==> Without(es, id) == es[..i] + es[i + 1..]
    decreases i
  {
    if i > 0 {
      WithoutPrefix(es[1..], id, i - 1);
      assert es[1..][i - 1..] == es[i..];
      assert es[..i] == [es[0]] + es[1..][..i - 1];
    } else {
      assert es[..0] + Without(es[0..], id) == Without(es, id);
    }
  }

  function Throwing(throws: Observer -> bool, ran: seq<Observer>): nat {
    if ran == [] then 0
    else Throwing(throws, ran[..|ran| - 1]) + if throws(ran[|ran| - 1]) then 1 else 0
  }

  class Dispatcher {
    var observers: seq<Entry>
    var nextId: nat

    predicate Valid()
      reads this
    {
      Ordered(observers, nextId)
    }

    constructor ()
      ensures Valid() && observers == [] && nextId == 1
    {
      observers, nextId := [], 1;
    }

    /** Appends, with an id larger than every earlier one. */
    method Subscribe(obs: Observer) returns (id: nat)
      requires Valid()
      modifies this
      ensures Valid()
      ensures id == old(nextId) && nextId == id + 1
      ensures observers == old(observers) + [Entry(id, obs)]
    {
      id := nextId;
      nextId := nextId + 1;
      observers := observers + [Entry(id, obs)];
    }

    /** Erases the entry with the id, if there is one, and nothing else. */
    method Unsubscribe(id: nat)
      requires Valid()
      modifies this`observers
      ensures Valid()
      ensures observers == Without(old(observers), id)
      ensures forall e :: e in observers <==> e in old(observers) && e.id != id
    {
      WithoutKeepsOrder(observers, id, nextId);
      var i := 0;
      while i < |observers|
        invariant 0 <= i <= |observers|
        invariant forall k :: 0 <= k < i ==> observers[k].id != id
      {
        if observers[i].id == id {
          WithoutPrefix(observers, id, i);
          observers := observers[..i] + observers[i + 1..];
          return;
        }
        i := i + 1;
      }
      WithoutPrefix(observers, id, |observers|);
    }

    /** Runs a snapshot of the observers, each one even if an earlier one threw
        (`throws` says which do); the result is who ran, in order. */
    method Dispatch(throws: Observer -> bool) returns (ran: seq<Observer>, failures: nat)
      ensures ran == Observers(observers)
      ensures failures == Throwing(throws, ran)
    {
      var snapshot: seq<Observer> := [];
      var k := 0;
      while k < |observers|
        invariant 0 <= k <= |observers|
        invariant snapshot == Observers(observers[..k])
      {
        snapshot := snapshot + [observers[k].obs];
        k := k + 1;
        assert observers[..k] == observers[..k - 1] + [observers[k - 1]];
      }
      assert observers[..k] == observers;
      ran, failures := [], 0;
      var i := 0;
      while i < |snapshot|
        invariant 0 <= i <= |snapshot|
        invariant ran == snapshot[..i] && failures == Throwing(throws, ran)
      {
        assert (ran + [snapshot[i]])[..i] == ran;
        ran := ran + [snapshot[i]];
        if throws(snapshot[i]) {
          failures := failures + 1;
        }
        i := i + 1;
      }
    }
  }

  /** A sequence of subscriptions and their removals. */
  datatype Change = Sub(obs: Observer) | Unsub(id: nat)

  function After(es: seq<Entry>, nextId: nat, cs: seq<Change>): (seq<Entry>, nat)
    decreases |cs|
  {
    if cs == [] then (es, nextId)
    else match cs[0]
      case Sub(obs) => After(es + [Entry(nextId, obs)], nextId + 1, cs[1..])
      case Unsub(id) => After(Without(es, id), nextId, cs[1..])
  }

  /** Whatever is subscribed and removed later, two observers that are both still
      there are dispatched in the order they subscribed. */
  lemma {:induction false} SubscriptionOrder(es: seq<Entry>, nextId: nat, cs: seq<Change>, a: Entry, b: Entry)
    requires Ordered(es, nextId) && a in es && b in es && a.id < b.id
    ensures var (es', next') := After(es, nextId, cs);
            && Ordered(es', next')
            && (a in es' && b in es' ==>
                  exists i, j :: 0 <= i < j < |es'| && es'[i] == a && es'[j] == b)
            && (forall e :: e in es' && e.id < nextId ==> e in es)
    decreases |cs|
  {
    if cs == [] {
      Position(es, nextId, a, b);
    } else {
      match cs[0]
      case Sub(obs) =>
        var es1 := es + [Entry(nextId, obs)];
        SubscriptionOrder(es1, nextId + 1, cs[1..], a, b);
      case Unsub(id) =>
        WithoutKeepsOrder(es, id, nextId);
        var es1 := Without(es, id);
        if a in es1 && b in es1 {
          SubscriptionOrder(es1, nextId, cs[1..], a, b);
        } else {
          NeverReturns(es1, nextId, cs[1..]);
        }
    }
  }

  lemma Position(es: seq<Entry>, nextId: nat, a: Entry, b: Entry)
    requires Ordered(es, nextId) && a in es && b in es && a.id < b.id
    ensures exists i, j :: 0 <= i < j < |es| && es[i] == a && es[j] == b
  {
  }

  /** Ids are not reused: an entry that is gone stays gone. */
  lemma {:induction false} NeverReturns(es: seq<Entry>, nextId: nat, cs: seq<Change>)
    requires Ordered(es, nextId)
    ensures var (es', next') := After(es, nextId, cs);
            Ordered(es', next') && (forall e :: e in es' && e.id < nextId ==> e in es)
    decreases |cs|
  {
    if cs != [] {
      match cs[0]
      case Sub(obs) => NeverReturns(es + [Entry(nextId, obs)], nextId + 1, cs[1..]);
      case Unsub(id) =>
        WithoutKeepsOrder(es, id, nextId);
        NeverReturns(Without(es, id), nextId, cs[1..]);
    }
  }

  /** The agent's constructor: the dispatcher, then the watchdog, then the poller. */
  method ConstructAgent() returns (d: Dispatcher)
    ensures fresh(d) && d.Valid()
    ensures d.observers == [Entry(1, Watchdog), Entry(2, Poller)] && d.nextId == 3
  {
    d := new Dispatcher();
    var w := d.Subscribe(Watchdog);
    var p := d.Subscribe(Poller);
  }

  /** So in every dispatch that reaches both, the watchdog is done before the
      poller learns of the state. */
  lemma WatchdogBeforePoller(cs: seq<Change>)
    ensures var w, p := Entry(1, Watchdog), Entry(2, Poller);
            var es := After([w, p], 3, cs).0;
            w in es && p in es ==> exists i, j :: 0 <= i < j < |es| && es[i] == w && es[j] == p
  {
    SubscriptionOrder([Entry(1, Watchdog), Entry(2, Poller)], 3, cs, Entry(1, Watchdog), Entry(2, Poller));
  }
}
