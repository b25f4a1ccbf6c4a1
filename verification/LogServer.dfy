/**
 The websocket endpoint as an object with one event queue per subscription.  Its methods are proved
 against the state functions of module LogSubscription.
 */
module LogServer {
  import opened LogSubscription
  import Collections

  datatype Event = Event(log: Log, removed: bool)

  /** What a client holds after a row of events. */
  function Fold(events: seq<Event>): set<Log> {
    if events == [] then {}
    else
      var e, before := events[|events| - 1], Fold(events[..|events| - 1]);
      if e.removed then before - {e.log} else before + {e.log}
  }

  function LogSet(events: seq<Event>): set<Log> {
    set e | e in events :: e.log
  }

  predicate Flagged(events: seq<Event>, removed: bool) {
    forall i :: 0 <= i < |events| ==> events[i].removed == removed
  }

  lemma {:induction false} FoldAppend(a: seq<Event>, b: seq<Event>, removed: bool)
    requires Flagged(b, removed)
    ensures Fold(a + b) == if removed then Fold(a) - LogSet(b) else Fold(a) + LogSet(b)
  {
    if b == [] {
      assert a + b == a;
    } else {
      var n := |b| - 1;
      FoldAppend(a, b[..n], removed);
      assert (a + b)[..|a + b| - 1] == a + b[..n];
      assert LogSet(b) == LogSet(b[..n]) + {b[n].log};
    }
  }

  // ---------------------------------------------------------------- events for a filter

  function LogsIn(logs: seq<Log>): set<Log> {
    set l | l in logs
  }

  /** Events for the logs a filter asks for, in order, one for every occurrence. */
  function Picked(f: Filter, logs: seq<Log>, removed: bool): seq<Event> {
    if logs == [] then []
    else
      var l, before := logs[|logs| - 1], Picked(f, logs[..|logs| - 1], removed);
      if Matches(f, l) then before + [Event(l, removed)] else before
  }

  lemma {:induction false} PickedSet(f: Filter, logs: seq<Log>, removed: bool)
    ensures Flagged(Picked(f, logs, removed), removed)
    ensures LogSet(Picked(f, logs, removed)) == Matching(f, LogsIn(logs))
  {
    if logs != [] {
      var n := |logs| - 1;
      PickedSet(f, logs[..n], removed);
      var before := Picked(f, logs[..n], removed);
      assert LogSet(before + [Event(logs[n], removed)]) == LogSet(before) + {logs[n]};
      assert logs == logs[..n] + [logs[n]];
    }
  }

  /** What events for a filter do to the client's view. */
  lemma {:induction false} FoldPicked(queue: seq<Event>, f: Filter, logs: seq<Log>, removed: bool)
    ensures Fold(queue + Picked(f, logs, removed))
         == if removed then Fold(queue) - Matching(f, LogsIn(logs)) else Fold(queue) + Matching(f, LogsIn(logs))
  {
    PickedSet(f, logs, removed);
    FoldAppend(queue, Picked(f, logs, removed), removed);
  }

  method EventsFor(f: Filter, logs: seq<Log>, removed: bool) returns (events: seq<Event>)
    ensures events == Picked(f, logs, removed)
  {
    events := [];
    for n := 0 to |logs|
      invariant events == Picked(f, logs[..n], removed)
    {
      var ok := TestLog(f, logs[n]);
      assert logs[..n + 1][..n] == logs[..n];
      if ok {
        events := events + [Event(logs[n], removed)];
      }
    }
    assert logs[..|logs|] == logs;
  }

  // ---------------------------------------------------------------- the cache

  /** Cached logs of a block.  Two subscriptions that receive the same log leave two copies. */
  datatype Copies = Copies(id: nat, logs: seq<Log>)

  /** The cache without repetitions. */
  function Abstract(cache: seq<Copies>): (c: seq<Cached>)
    ensures |c| == |cache|
    ensures forall i :: 0 <= i < |cache| ==> c[i] == Cached(cache[i].id, LogsIn(cache[i].logs))
  {
    seq(|cache|, i requires 0 <= i < |cache| => Cached(cache[i].id, LogsIn(cache[i].logs)))
  }

  lemma {:induction false} CachedLogsSnoc(cache: seq<Cached>, c: Cached)
    ensures CachedLogs(cache + [c]) == CachedLogs(cache) + c.logs
  {
    if cache == [] {
      assert CachedLogs([c]) == c.logs + CachedLogs([]);
      assert cache + [c] == [c];
    } else {
      assert (cache + [c])[1..] == cache[1..] + [c];
      CachedLogsSnoc(cache[1..], c);
    }
  }

  /** One more cached block is popped. */
  lemma {:induction false} PopOne(all: seq<Cached>, k: nat, parent: nat)
    requires k < |all| && all[k].id != parent
    ensures PopCount(all[k..], parent) == 1 + PopCount(all[k + 1..], parent)
    ensures CachedLogs(all[..k + 1]) == CachedLogs(all[..k]) + all[k].logs
  {
    assert all[k..][1..] == all[k + 1..];
    assert all[..k + 1] == all[..k] + [all[k]];
    CachedLogsSnoc(all[..k], all[k]);
  }

  /** Matching logs of a block, subscription by subscription. */
  function MatchCounts(filters: map<nat, Filter>, ids: set<nat>, logs: seq<Log>): map<nat, nat> {
    map id | id in filters && id in ids :: |Picked(filters[id], logs, false)|
  }

  lemma {:induction false} MatchCountsAdd(filters: map<nat, Filter>, done: set<nat>, id: nat, logs: seq<Log>)
    requires id in filters && id !in done
    ensures Collections.Total(MatchCounts(filters, done + {id}, logs))
         == Collections.Total(MatchCounts(filters, done, logs)) + |Picked(filters[id], logs, false)|
  {
    var before := MatchCounts(filters, done, logs);
    Collections.TotalAdd(before, id, |Picked(filters[id], logs, false)|);
    assert MatchCounts(filters, done + {id}, logs) == before[id := |Picked(filters[id], logs, false)|];
  }

  class Server {
    var cache: seq<Copies>
    var filters: map<nat, Filter>
    var queues: map<nat, seq<Event>>

    ghost predicate Valid()
      reads this
    {
      filters.Keys == queues.Keys && |cache| <= MAX_CACHED
    }

    /** The server holds the cache and the filters of `s`, and each client's events fold to its view. */
    ghost predicate Represents(s: State)
      reads this
    {
      && Abstract(cache) == s.cache && filters.Keys == queues.Keys == s.subs.Keys
      && forall id :: id in filters ==> filters[id] == s.subs[id].filter && Fold(queues[id]) == s.subs[id].view
    }

    constructor (ghost chain: seq<Block>)
      ensures Valid() && Represents(Started(chain))
    {
      cache, filters, queues := [], map[], map[];
    }

    method AddSubscription(id: nat, f: Filter, ghost s: State)
      requires Valid() && Represents(s)
      modifies this
      ensures Valid() && Represents(Apply(s, Subscribe(id, f)))
    {
      filters, queues := filters[id := f], queues[id := []];
    }

    method RemoveSubscription(id: nat, ghost s: State) returns (found: bool)
      requires Valid() && Represents(s)
      modifies this
      ensures Valid() && Represents(Apply(s, Unsubscribe(id))) && found == (id in s.subs)
    {
      found := id in filters;
      filters, queues := filters - {id}, queues - {id};
    }

    /** Tell every subscription that logs it received are no longer part of the chain, once per copy. */
    method Withdraw(logs: seq<Log>)
      requires Valid()
      modifies this`queues
      ensures Valid()
      ensures forall id :: id in filters ==> queues[id] == old(queues)[id] + Picked(filters[id], logs, true)
      ensures forall id :: id in filters ==>
        Fold(queues[id]) == Fold(old(queues)[id]) - Matching(filters[id], LogsIn(logs))
    {
      var todo := filters.Keys;
      while todo != {}
        invariant Valid() && todo <= filters.Keys
        invariant forall id :: id in todo ==> queues[id] == old(queues)[id]
        invariant forall id :: id in filters && id !in todo ==>
          queues[id] == old(queues)[id] + Picked(filters[id], logs, true)
        decreases todo
      {
        var id :| id in todo;
        var events := EventsFor(filters[id], logs, true);
        queues := queues[id := queues[id] + events];
        todo := todo - {id};
      }
      forall id | id in filters
        ensures Fold(queues[id]) == Fold(old(queues)[id]) - Matching(filters[id], LogsIn(logs))
      {
        FoldPicked(old(queues)[id], filters[id], logs, true);
      }
    }

    /** Send the new block's logs and collect a copy of each for every subscription that received it. */
    method Announce(b: Block) returns (copies: seq<Log>)
      requires Valid()
      modifies this`queues
      ensures Valid()
      ensures LogsIn(copies) == Received(filters, filters.Keys, b)
      ensures |copies| == Collections.Total(MatchCounts(filters, filters.Keys, b.logs))
      ensures forall id :: id in filters ==> queues[id] == old(queues)[id] + Picked(filters[id], b.logs, false)
      ensures forall id :: id in filters ==>
        Fold(queues[id]) == Fold(old(queues)[id]) + Matching(filters[id], LogsOf(b))
    {
      var done: set<nat> := {};
      copies := [];
      NoneReceived(filters, b);
      while done != filters.Keys
        invariant Valid() && done <= filters.Keys
        invariant LogsIn(copies) == Received(filters, done, b)
        invariant |copies| == Collections.Total(MatchCounts(filters, done, b.logs))
        invariant forall id :: id in filters && id !in done ==> queues[id] == old(queues)[id]
        invariant forall id :: id in done ==> queues[id] == old(queues)[id] + Picked(filters[id], b.logs, false)
        decreases filters.Keys - done
      {
        assert filters.Keys - done != {};
        var id :| id in filters.Keys - done;
        var events := EventsFor(filters[id], b.logs, false);
        OneMoreReceives(filters, done, id, b, copies);
        queues := queues[id := queues[id] + events];
        copies := copies + LogsOfEvents(events);
        done := done + {id};
      }
      forall id | id in filters
        ensures Fold(queues[id]) == Fold(old(queues)[id]) + Matching(filters[id], LogsOf(b))
      {
        FoldPicked(old(queues)[id], filters[id], b.logs, false);
      }
    }

    /** Take back the logs of cached blocks after `parent`, newest first. */
    method TakeBack(parent: nat)
      requires Valid()
      modifies this`cache, this`queues
      ensures Valid() && cache == old(cache)[PopCount(Abstract(old(cache)), parent)..]
      ensures forall id :: id in filters ==>
        Fold(queues[id]) == Fold(old(queues)[id])
          - Matching(filters[id], CachedLogs(Abstract(old(cache))[..PopCount(Abstract(old(cache)), parent)]))
    {
      ghost var all := Abstract(cache);
      var k: nat := 0;
      while |cache| > 0 && cache[0].id != parent
        invariant Valid() && k <= |old(cache)| && cache == old(cache)[k..]
        invariant k + PopCount(all[k..], parent) == PopCount(all, parent)
        invariant forall id :: id in filters ==>
          Fold(queues[id]) == Fold(old(queues)[id]) - Matching(filters[id], CachedLogs(all[..k]))
        decreases |cache|
      {
        Withdraw(cache[0].logs);
        PopOne(all, k, parent);
        cache := cache[1..];
        k := k + 1;
      }
      assert all[..|all|] == all;
    }

    method Remember(id: nat, logs: seq<Log>)
      requires Valid()
      modifies this`cache
      ensures Valid() && Abstract(cache) == Truncate([Cached(id, LogsIn(logs))] + Abstract(old(cache)))
    {
      cache := [Copies(id, logs)] + cache;
      if |cache| > MAX_CACHED {
        cache := cache[..|cache| - 1];
      }
    }

    /** A block was applied: take back what was abandoned and is still cached, then announce the block's
        own logs and remember them. */
    method NotifyBlock(b: Block, ghost s: State, ghost at: nat)
      requires Valid() && Represents(s) && CanApply(s, at, b)
      modifies this
      ensures Valid() && Represents(Apply(s, Applied(at, b)))
    {
      TakeBack(b.parent);
      assert Abstract(cache) == s.cache[PopCount(s.cache, b.parent)..];
      var copies := Announce(b);
      ReceivedIsRelevant(filters, s.subs, b);
      Remember(b.id, copies);
      NotifiedViews(s, at, b, Abstract(cache), filters, map id | id in queues :: Fold(queues[id]));
    }

    /** After every run whose switches stay within 100 blocks of the highest tip, every client holds exactly
        the matching logs of the active chain since it subscribed. */
    lemma {:induction false} ClientsHoldExpected(chain: seq<Block>, steps: seq<Step>)
      requires chain != [] && GoodChain(chain) && ShallowRun(chain, steps) && Represents(Run(chain, steps))
      ensures forall id :: id in filters ==>
        Fold(queues[id]) == Expected(Run(chain, steps).chain, filters[id], Run(chain, steps).subs[id].since)
    {
      var s := Run(chain, steps);
      ViewsAreExact(chain, steps);
      forall id | id in filters ensures Fold(queues[id]) == Expected(s.chain, filters[id], s.subs[id].since) {
        assert Exact(s, s.subs[id]);
      }
    }
  }

  /** Logs of a block that some of the given subscriptions receive. */
  function Received(filters: map<nat, Filter>, ids: set<nat>, b: Block): set<Log> {
    set id, l | id in filters && id in ids && l in b.logs && Matches(filters[id], l) :: l
  }

  /** What the next state holds, put together from its parts. */
  lemma {:induction false} NotifiedViews(s: State, at: nat, b: Block, cache: seq<Cached>, filters: map<nat, Filter>,
                                         views: map<nat, set<Log>>)
    requires CanApply(s, at, b) && filters.Keys == views.Keys == s.subs.Keys
    requires cache == Truncate([Cached(b.id, Relevant(s.subs, b))] + s.cache[PopCount(s.cache, b.parent)..])
    requires forall id :: id in filters ==>
      && filters[id] == s.subs[id].filter
      && views[id] == s.subs[id].view - Matching(filters[id], CachedLogs(s.cache[..PopCount(s.cache, b.parent)]))
                        + Matching(filters[id], LogsOf(b))
    ensures var t := Apply(s, Applied(at, b));
      && cache == t.cache && filters.Keys == t.subs.Keys
      && forall id :: id in filters ==> filters[id] == t.subs[id].filter && views[id] == t.subs[id].view
  {
  }

  lemma {:induction false} ReceivedIsRelevant(filters: map<nat, Filter>, subs: map<nat, Subscription>, b: Block)
    requires filters.Keys == subs.Keys && forall id :: id in filters ==> filters[id] == subs[id].filter
    ensures Received(filters, filters.Keys, b) == Relevant(subs, b)
  {
  }

  lemma {:induction false} NoneReceived(filters: map<nat, Filter>, b: Block)
    ensures Received(filters, {}, b) == {} && Collections.Total(MatchCounts(filters, {}, b.logs)) == 0
  {
    assert MatchCounts(filters, {}, b.logs) == map[];
  }

  lemma {:induction false} OneMoreReceives(filters: map<nat, Filter>, done: set<nat>, id: nat, b: Block,
      copies: seq<Log>)
    requires id in filters && id !in done && LogsIn(copies) == Received(filters, done, b)
    ensures var more := LogsOfEvents(Picked(filters[id], b.logs, false));
      && LogsIn(copies + more) == Received(filters, done + {id}, b)
      && Collections.Total(MatchCounts(filters, done + {id}, b.logs))
           == Collections.Total(MatchCounts(filters, done, b.logs)) + |more|
  {
    var more := LogsOfEvents(Picked(filters[id], b.logs, false));
    PickedSet(filters[id], b.logs, false);
    MatchCountsAdd(filters, done, id, b.logs);
    assert LogsIn(copies + more) == LogsIn(copies) + LogsIn(more);
    assert Received(filters, done + {id}, b) == Received(filters, done, b) + Matching(filters[id], LogsIn(b.logs));
  }

  function LogsOfEvents(events: seq<Event>): (logs: seq<Log>)
    ensures |logs| == |events| && LogsIn(logs) == LogSet(events)
  {
    var logs := seq(|events|, i requires 0 <= i < |events| => events[i].log);
    assert forall i :: 0 <= i < |events| ==> logs[i] == events[i].log && logs[i] in logs && events[i] in events;
    logs
  }
}
