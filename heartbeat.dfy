/**
 * `Heartbeat` (src/component/heartbeat.ts): a once-a-second tick that counts
 * and fires every subscriber whose interval divides the count and that is
 * awake.  The interval timer becomes explicit `Tick` calls, `Date.now()` a
 * `now` parameter, and the uuid of a new subscription a `freshId` parameter.
 * A subscriber's callback is named by a `Callback` token; the model returns
 * the calls a tick makes (each callback with its subscription id) instead of
 * making them.
 */
module Heartbeat {
  /** The identity of a subscriber function. */
  type Callback = nat

  /** One subscription; a wake time of 0 means "not asleep". */
  datatype Subscription = Subscription(id: string, name: string, subscriber: Callback, interval: int, sleep: int)

  /** One call `subscriber(id)` made by a tick. */
  datatype Call = Call(subscriber: Callback, id: string)

  /**
   * The subscription fires at this count: `count % interval === 0` (never
   * for interval 0, where the remainder is NaN), and it is not asleep or its
   * wake time has come.  For a positive count, JavaScript's truncating `%`
   * and Dafny's Euclidean `%` agree on the test against 0.
   */
  predicate Fires(s: Subscription, count: nat, now: int) {
    s.interval != 0 && count % s.interval == 0 && (s.sleep == 0 || s.sleep <= now)
  }

  /** The calls of one tick at `count`, in subscription order. */
  function Firing(subs: seq<Subscription>, count: nat, now: int): (r: seq<Call>)
    ensures |r| <= |subs|
  {
    if |subs| == 0 then []
    else
      var last := subs[|subs| - 1];
      Firing(subs[..|subs| - 1], count, now) + (if Fires(last, count, now) then [Call(last.subscriber, last.id)] else [])
  }

  /** The position of the first subscription with this id, or -1. */
  function IndexOfId(subs: seq<Subscription>, id: string): (i: int)
    ensures -1 <= i < |subs|
    ensures i >= 0 ==> subs[i].id == id && forall j :: 0 <= j < i ==> subs[j].id != id
    ensures i == -1 ==> forall j :: 0 <= j < |subs| ==> subs[j].id != id
  {
    if |subs| == 0 then -1
    else if subs[0].id == id then 0
    else
      var i := IndexOfId(subs[1..], id);
      if i == -1 then -1 else i + 1
  }

  /** The subscriptions after `unsubscribe(id)`: the first one with the id spliced out. */
  function Unsubscribed(subs: seq<Subscription>, id: string): seq<Subscription> {
    var i := IndexOfId(subs, id);
    if i == -1 then subs else subs[..i] + subs[i + 1..]
  }

  /** The subscriptions after `sleep(id, seconds)`: the first one with the id gets the wake time. */
  function Slept(subs: seq<Subscription>, id: string, wake: int): seq<Subscription> {
    var i := IndexOfId(subs, id);
    if i == -1 then subs else subs[i := subs[i].(sleep := wake)]
  }

  class Heartbeat {
    var count: nat
    var subscribers: seq<Subscription>

    constructor()
      ensures count == 0 && subscribers == []
    {
      count := 0;
      subscribers := [];
    }

    /** One run of the interval callback: count up, then fire in subscription order. */
    method Tick(now: int) returns (calls: seq<Call>)
      modifies this
      ensures count == old(count) + 1
      ensures subscribers == old(subscribers)
      ensures calls == Firing(subscribers, count, now)
    {
      count := count + 1;
      calls := [];
      var i := 0;
      while i < |subscribers|
        invariant 0 <= i <= |subscribers|
        invariant calls == Firing(subscribers[..i], count, now)
      {
        var s := subscribers[i];
        assert subscribers[..i + 1][..i] == subscribers[..i];
        if s.interval != 0 && count % s.interval == 0 {
          if s.sleep != 0 {
            if s.sleep <= now {
              calls := calls + [Call(s.subscriber, s.id)];
            }
          } else {
            calls := calls + [Call(s.subscriber, s.id)];
          }
        }
        i := i + 1;
      }
      assert subscribers[..i] == subscribers;
    }

    /**
     * `subscribe(name, interval, subscriber, sleep)`: append one subscription,
     * asleep for `sleep` seconds when that is given (0 stands for absent).
     */
    method Subscribe(name: string, interval: int, subscriber: Callback, sleep: int, now: int, freshId: string)
      modifies this
      ensures count == old(count)
      ensures subscribers ==
        old(subscribers) + [Subscription(freshId, name, subscriber, interval, if sleep != 0 then now + sleep * 1000 else 0)]
    {
      subscribers := subscribers + [Subscription(freshId, name, subscriber, interval, if sleep != 0 then now + sleep * 1000 else 0)];
    }

    /** `unsubscribe(id)`: a scan that splices out the first match and stops. */
    method Unsubscribe(id: string)
      modifies this
      ensures count == old(count)
      ensures subscribers == Unsubscribed(old(subscribers), id)
    {
      var i := 0;
      while i < |subscribers|
        invariant 0 <= i <= |subscribers|
        invariant forall j :: 0 <= j < i ==> subscribers[j].id != id
      {
        if subscribers[i].id == id {
          subscribers := subscribers[..i] + subscribers[i + 1..];
          return;
        }
        i := i + 1;
      }
    }

    /** `sleep(id, seconds)`: the first subscription with the id wakes `seconds` from now. */
    method Sleep(id: string, seconds: int, now: int)
      modifies this
      ensures count == old(count)
      ensures subscribers == Slept(old(subscribers), id, now + seconds * 1000)
    {
      var i := 0;
      while i < |subscribers|
        invariant 0 <= i <= |subscribers|
        invariant forall j :: 0 <= j < i ==> subscribers[j].id != id
      {
        if subscribers[i].id == id {
          subscribers := subscribers[i := subscribers[i].(sleep := now + seconds * 1000)];
          return;
        }
        i := i + 1;
      }
    }
  }

  // ---------------------------------------------------------------------
  // Properties

  /** A call is made exactly for each subscription that fires, in subscription order. */
  lemma {:induction false} FiringCalls(subs: seq<Subscription>, count: nat, now: int)
    ensures forall c :: c in Firing(subs, count, now) <==>
      exists i :: 0 <= i < |subs| && Fires(subs[i], count, now) && c == Call(subs[i].subscriber, subs[i].id)
  {
    if |subs| > 0 {
      var init := subs[..|subs| - 1];
      FiringCalls(init, count, now);
      forall c | c in Firing(subs, count, now)
        ensures exists i :: 0 <= i < |subs| && Fires(subs[i], count, now) && c == Call(subs[i].subscriber, subs[i].id)
      {
        if c in Firing(init, count, now) {
          var i :| 0 <= i < |init| && Fires(init[i], count, now) && c == Call(init[i].subscriber, init[i].id);
          assert subs[i] == init[i];
        } else {
          assert Fires(subs[|subs| - 1], count, now);
        }
      }
      forall i | 0 <= i < |subs| && Fires(subs[i], count, now)
        ensures Call(subs[i].subscriber, subs[i].id) in Firing(subs, count, now)
      {
        if i < |subs| - 1 {
          assert init[i] == subs[i];
        }
      }
    }
  }

  /** The calls for a list of subscriptions are those of its first part followed by those of the rest. */
  lemma {:induction false} FiringAppend(a: seq<Subscription>, b: seq<Subscription>, count: nat, now: int)
    ensures Firing(a + b, count, now) == Firing(a, count, now) + Firing(b, count, now)
    decreases |b|
  {
    if |b| == 0 {
      assert a + b == a;
    } else {
      var b' := b[..|b| - 1];
      assert (a + b)[..|a + b| - 1] == a + b';
      assert (a + b)[|a + b| - 1] == b[|b| - 1];
      FiringAppend(a, b', count, now);
    }
  }

  /** An asleep subscription stays silent until its wake time, whatever the count. */
  lemma AsleepSilent(s: Subscription, count: nat, now: int)
    requires s.sleep != 0 && now < s.sleep
    ensures !Fires(s, count, now)
  {
  }

  /** `unsubscribe` of an unknown id changes nothing. */
  lemma UnsubscribeUnknown(subs: seq<Subscription>, id: string)
    requires forall j :: 0 <= j < |subs| ==> subs[j].id != id
    ensures Unsubscribed(subs, id) == subs
  {
  }

  /**
   * `unsubscribe` of a known id removes one entry: every other subscription
   * stays, in order, and a later one with the same id is kept.
   */
  lemma UnsubscribeRemovesFirst(subs: seq<Subscription>, id: string)
    requires exists j :: 0 <= j < |subs| && subs[j].id == id
    ensures var i := IndexOfId(subs, id);
      var r := Unsubscribed(subs, id);
      && 0 <= i
      && |r| == |subs| - 1
      && (forall j :: 0 <= j < i ==> r[j] == subs[j])
      && (forall j :: i < j < |subs| ==> r[j - 1] == subs[j])
      && multiset(r) + multiset{subs[i]} == multiset(subs)
  {
    var i := IndexOfId(subs, id);
    assert subs == subs[..i] + [subs[i]] + subs[i + 1..];
  }

  /** `sleep` changes only the wake time of the first subscription with the id. */
  lemma SleepOnlyThat(subs: seq<Subscription>, id: string, wake: int)
    ensures var r := Slept(subs, id, wake);
      var i := IndexOfId(subs, id);
      && |r| == |subs|
      && (forall j :: 0 <= j < |subs| && j != i ==> r[j] == subs[j])
      && (i >= 0 ==> r[i] == subs[i].(sleep := wake))
  {
  }

  /** A subscription put to sleep `seconds > 0` from `now` does not fire before that time. */
  lemma SleptSilent(subs: seq<Subscription>, id: string, seconds: int, now: int, count: nat, later: int)
    requires IndexOfId(subs, id) >= 0 && now >= 0 && seconds > 0 && later < now + seconds * 1000
    ensures !Fires(Slept(subs, id, now + seconds * 1000)[IndexOfId(subs, id)], count, later)
  {
  }
}
