/**
 * `Events` (src/component/events.ts): per-message lists of subscribers.
 * `subscribe` adds a subscriber to the list of a message once; `signal`
 * calls `handle(params)` on every subscriber of the message, in order.  A
 * subscriber is named by a `Handle` (its object identity, which is what
 * `indexOf` compares); a falsy subscriber is `None`.  `signal` returns the
 * handles it calls, each with the same `params`.
 */
module Events {
  import opened Js

  /** The identity of a subscriber object. */
  type Handle = nat

  /** The list of a message, `[]` when it has none. */
  function SubscribersOf(subs: map<string, seq<Handle>>, message: string): seq<Handle> {
    if message in subs then subs[message] else []
  }

  /** The lists after `subscribe(message, subscriber)`. */
  function Subscribed(subs: map<string, seq<Handle>>, message: string, subscriber: Option<Handle>): map<string, seq<Handle>> {
    if subscriber.None? then subs
    else
      var list := SubscribersOf(subs, message);
      subs[message := if subscriber.value in list then list else list + [subscriber.value]]
  }

  /** No list holds a subscriber twice. */
  predicate NoDuplicates(subs: map<string, seq<Handle>>) {
    forall m :: m in subs ==> forall i, j :: 0 <= i < j < |subs[m]| ==> subs[m][i] != subs[m][j]
  }

  class Events {
    var subscribers: map<string, seq<Handle>>

    ghost predicate Valid()
      reads this
    {
      NoDuplicates(subscribers)
    }

    constructor()
      ensures Valid() && subscribers == map[]
    {
      subscribers := map[];
    }

    /** `signal(message, params)`: one `handle(params)` per subscriber of the message, in list order. */
    method Signal(message: string) returns (calls: seq<Handle>)
      ensures calls == SubscribersOf(subscribers, message)
    {
      calls := [];
      if message in subscribers {
        var subs := subscribers[message];
        var i := 0;
        while i < |subs|
          invariant 0 <= i <= |subs|
          invariant calls == subs[..i]
        {
          calls := calls + [subs[i]];
          i := i + 1;
        }
        assert subs[..i] == subs;
      }
    }

    /** `subscribe(message, subscriber)`: a truthy subscriber not yet in the list is appended. */
    method Subscribe(message: string, subscriber: Option<Handle>)
      requires Valid()
      modifies this
      ensures Valid()
      ensures subscribers == Subscribed(old(subscribers), message, subscriber)
    {
      if subscriber.Some? {
        var subs := if message in subscribers then subscribers[message] else [];
        if subscriber.value !in subs {
          subs := subs + [subscriber.value];
        }
        subscribers := subscribers[message := subs];
      }
    }
  }

  // ---------------------------------------------------------------------
  // Properties

  /** Subscribing twice is subscribing once. */
  lemma SubscribeIdempotent(subs: map<string, seq<Handle>>, message: string, subscriber: Option<Handle>)
    ensures Subscribed(Subscribed(subs, message, subscriber), message, subscriber) == Subscribed(subs, message, subscriber)
  {
  }

  /**
   * A subscribed subscriber is in the list; the list keeps its earlier
   * members in their order and grows by at most that one, at the end.
   */
  lemma SubscribeAppends(subs: map<string, seq<Handle>>, message: string, h: Handle)
    ensures var after := SubscribersOf(Subscribed(subs, message, Some(h)), message);
      var before := SubscribersOf(subs, message);
      && h in after
      && (h in before ==> after == before)
      && (h !in before ==> after == before + [h])
  {
  }

  /** The lists of other messages, and everything for a falsy subscriber, are untouched. */
  lemma SubscribeOthersUntouched(subs: map<string, seq<Handle>>, message: string, subscriber: Option<Handle>, other: string)
    requires other != message || subscriber.None?
    ensures SubscribersOf(Subscribed(subs, message, subscriber), other) == SubscribersOf(subs, other)
  {
  }

  /** The lists stay free of duplicates. */
  lemma SubscribeKeepsDistinct(subs: map<string, seq<Handle>>, message: string, subscriber: Option<Handle>)
    requires NoDuplicates(subs)
    ensures NoDuplicates(Subscribed(subs, message, subscriber))
  {
  }
}
