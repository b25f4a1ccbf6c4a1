/**
 The websocket `logs` subscription: matching logs are pushed as blocks are applied, and pushed again
 with `removed` set when the chain they belong to is abandoned.
 */
module LogSubscription {

  /** A log knows the block it was emitted in and its position there. */
  datatype Log = Log(block: nat, index: nat, address: nat, topics: seq<nat>)

  datatype Filter = Filter(addresses: seq<nat>, topics: seq<seq<nat>>)

  datatype Block = Block(id: nat, parent: nat, logs: seq<Log>)

  /** Logs of one block that some subscription received. */
  datatype Cached = Cached(id: nat, logs: set<Log>)

  /** One subscription: its filter, the blocks applied since it was made, and the logs a client holds
      that adds every event and deletes every `removed` one. */
  datatype Subscription = Subscription(filter: Filter, since: set<nat>, view: set<Log>)

  /** `cache` is newest first; `high` is the greatest chain length so far. */
  datatype State = State(chain: seq<Block>, cache: seq<Cached>, subs: map<nat, Subscription>, high: nat)

  /** Blocks whose logs are remembered for a later removal. */
  const MAX_CACHED: nat := 100

  // ---------------------------------------------------------------- filters

  /** The address is one of those asked for, and topic rules match position by position; no address and
      an empty rule match everything. */
  predicate Matches(f: Filter, l: Log) {
    && (f.addresses == [] || l.address in f.addresses)
    && |f.topics| <= |l.topics|
    && forall i :: 0 <= i < |f.topics| ==> f.topics[i] == [] || l.topics[i] in f.topics[i]
  }

  /** The test as the node makes it, pair by pair. */
  method TestLog(f: Filter, l: Log) returns (ok: bool)
    ensures ok == Matches(f, l)
  {
    if |f.addresses| > 0 && l.address !in f.addresses {
      return false;
    }
    if |f.topics| > |l.topics| {
      return false;
    }
    var i := 0;
    while i < |f.topics| && (f.topics[i] == [] || l.topics[i] in f.topics[i])
      invariant 0 <= i <= |f.topics|
      invariant forall k :: 0 <= k < i ==> f.topics[k] == [] || l.topics[k] in f.topics[k]
    {
      i := i + 1;
    }
    return i == |f.topics|;
  }

  /** Without topic rules only the address counts: one of the list, or any if the list is empty. */
  lemma {:induction false} AddressAlone(addresses: seq<nat>, l: Log)
    ensures Matches(Filter(addresses, []), l) <==>
      addresses == [] || exists i :: 0 <= i < |addresses| && addresses[i] == l.address
  {
  }

  /** One more rule matches if and only if the old ones do, the log has a topic at that position, and the
      rule is empty or names it. */
  lemma {:induction false} OneMoreRule(f: Filter, rule: seq<nat>, l: Log)
    ensures Matches(Filter(f.addresses, f.topics + [rule]), l) <==>
      Matches(f, l) && |f.topics| < |l.topics| && (rule == [] || l.topics[|f.topics|] in rule)
  {
    var more := Filter(f.addresses, f.topics + [rule]);
    assert forall i :: 0 <= i < |f.topics| ==> more.topics[i] == f.topics[i];
    if Matches(more, l) {
      assert more.topics[|f.topics|] == rule;
    }
  }

  /** A match does not depend on further topics of the log, nor on where it was emitted. */
  lemma {:induction false} MoreTopicsStillMatch(f: Filter, l: Log, m: Log)
    requires Matches(f, l) && m.address == l.address && l.topics <= m.topics
    ensures Matches(f, m)
  {
  }

  /** The subscriptions of the functional test to a log of contract `c` with three topics: the first two
      topics find it, a fourth rule or an unused topic does not, and the address alone does. */
  lemma {:induction false} ScriptFilters(l: Log, c: nat, t0: nat, t1: nat, t2: nat, unused: nat)
    requires l.address == c && l.topics == [t0, t1, t2] && unused != t0
    ensures Matches(Filter([c], [[t0], [t1]]), l) && Matches(Filter([c], []), l) && Matches(Filter([], []), l)
    ensures !Matches(Filter([c], [[t0], [t1], [t2], [unused]]), l) && !Matches(Filter([c], [[unused]]), l)
    ensures Matches(Filter([c], [[], [t1]]), l) && Matches(Filter([c], [[unused, t0]]), l)
    ensures forall other :: other != c ==> !Matches(Filter([other], []), l)
  {
    assert l.topics[0] == t0 && l.topics[1] == t1;
  }

  function Matching(f: Filter, logs: set<Log>): set<Log> {
    set l | l in logs && Matches(f, l)
  }

  function LogsOf(b: Block): set<Log> {
    set l | l in b.logs
  }

  // ---------------------------------------------------------------- applying a block

  /** How many cached blocks come before the new block's parent. */
  function PopCount(cache: seq<Cached>, parent: nat): (k: nat)
    ensures k <= |cache|
    ensures k < |cache| ==> cache[k].id == parent
    ensures forall i :: 0 <= i < k ==> cache[i].id != parent
  {
    if cache == [] || cache[0].id == parent then 0 else 1 + PopCount(cache[1..], parent)
  }

  function CachedLogs(cache: seq<Cached>): set<Log> {
    if cache == [] then {} else cache[0].logs + CachedLogs(cache[1..])
  }

  /** Logs of a block that at least one subscription asks for. */
  function Relevant(subs: map<nat, Subscription>, b: Block): set<Log> {
    set id, l | id in subs && l in b.logs && Matches(subs[id].filter, l) :: l
  }

  function Deliver(sub: Subscription, popped: set<Log>, b: Block): Subscription {
    sub.(since := sub.since + {b.id},
         view := sub.view - Matching(sub.filter, popped) + Matching(sub.filter, LogsOf(b)))
  }

  function Truncate(cache: seq<Cached>): seq<Cached> {
    if |cache| > MAX_CACHED then cache[..MAX_CACHED] else cache
  }

  /** A block is applied on top of the chain's block number `at`. */
  function Notify(s: State, at: nat, b: Block): State
    requires at < |s.chain|
  {
    var k := PopCount(s.cache, b.parent);
    var chain := s.chain[..at + 1] + [b];
    State(
      chain,
      Truncate([Cached(b.id, Relevant(s.subs, b))] + s.cache[k..]),
      map id | id in s.subs :: Deliver(s.subs[id], CachedLogs(s.cache[..k]), b),
      if |chain| > s.high then |chain| else s.high)
  }

  datatype Step = Subscribe(id: nat, filter: Filter) | Unsubscribe(id: nat) | Applied(at: nat, block: Block)

  /** What the node's history guarantees about an applied block. */
  predicate CanApply(s: State, at: nat, b: Block) {
    && at < |s.chain| && b.parent == s.chain[at].id
    && (forall i :: 0 <= i < |s.chain| ==> s.chain[i].id != b.id)
    && (forall i :: 0 <= i < |b.logs| ==> b.logs[i].block == b.id)
  }

  function Apply(s: State, step: Step): State {
    match step
    case Subscribe(id, f) => s.(subs := s.subs[id := Subscription(f, {}, {})])
    case Unsubscribe(id) => s.(subs := s.subs - {id})
    case Applied(at, b) => if CanApply(s, at, b) then Notify(s, at, b) else s
  }

  // ---------------------------------------------------------------- what holds in every run

  /** Position in the chain of the oldest cached block. */
  function Low(s: State): int {
    |s.chain| - |s.cache|
  }

  predicate GoodChain(chain: seq<Block>) {
    && (forall i, k :: 0 <= i < k < |chain| ==> chain[i].id != chain[k].id)
    && (forall i :: 0 <= i < |chain| ==> forall l :: l in chain[i].logs ==> l.block == chain[i].id)
  }

  /** The cache mirrors the end of the chain. */
  predicate CacheMirrors(s: State) {
    && |s.cache| <= |s.chain|
    && (forall i :: 0 <= i < |s.cache| ==> s.cache[i].id == s.chain[|s.chain| - 1 - i].id)
    && (forall i :: 0 <= i < |s.cache| ==> s.cache[i].logs <= LogsOf(s.chain[|s.chain| - 1 - i]))
  }

  /** Whatever a subscription received of a cached block is in the cache. */
  predicate CacheComplete(s: State, sub: Subscription)
    requires |s.cache| <= |s.chain|
  {
    forall i :: 0 <= i < |s.cache| && s.cache[i].id in sub.since ==>
      Matching(sub.filter, LogsOf(s.chain[|s.chain| - 1 - i])) <= s.cache[i].logs
  }

  /** Blocks a subscription saw that are no longer cached lie far below the highest tip. */
  predicate UncachedAreDeep(s: State, sub: Subscription) {
    forall i :: 0 <= i < |s.chain| - |s.cache| && s.chain[i].id in sub.since ==> i + MAX_CACHED < s.high
  }

  predicate Inv(s: State) {
    && s.chain != [] && |s.chain| <= s.high
    && GoodChain(s.chain) && CacheMirrors(s)
    && (forall id :: id in s.subs ==> CacheComplete(s, s.subs[id]) && UncachedAreDeep(s, s.subs[id]))
  }

  /** Matching logs of active blocks applied since the subscription was made. */
  function Expected(chain: seq<Block>, f: Filter, since: set<nat>): set<Log> {
    set i, l | 0 <= i < |chain| && chain[i].id in since && l in chain[i].logs && Matches(f, l) :: l
  }

  predicate Exact(s: State, sub: Subscription) {
    sub.view == Expected(s.chain, sub.filter, sub.since)
  }

  /** Going back to block `at` abandons a block with a delivered log that is no longer cached. */
  predicate Loses(s: State, sub: Subscription, at: nat) {
    exists i, l ::
      at < i < |s.chain| - |s.cache| && s.chain[i].id in sub.since && l in s.chain[i].logs && Matches(sub.filter, l)
  }

  // ---------------------------------------------------------------- the cache

  lemma {:induction false} CachedLogsMember(cache: seq<Cached>, l: Log)
    ensures l in CachedLogs(cache) <==> exists i :: 0 <= i < |cache| && l in cache[i].logs
  {
    if cache != [] {
      CachedLogsMember(cache[1..], l);
      if l in CachedLogs(cache[1..]) {
        var i :| 0 <= i < |cache[1..]| && l in cache[1..][i].logs;
        assert l in cache[i + 1].logs;
      }
      if i :| 0 <= i < |cache| && l in cache[i].logs {
        assert i > 0 ==> l in cache[1..][i - 1].logs;
      }
    }
  }

  /** The cached blocks after the parent are popped, and no others. */
  lemma {:induction false} PopsAbandoned(s: State, at: nat, b: Block)
    requires GoodChain(s.chain) && CacheMirrors(s) && CanApply(s, at, b)
    ensures PopCount(s.cache, b.parent) == if |s.cache| < |s.chain| - 1 - at then |s.cache| else |s.chain| - 1 - at
  {
    var k, n := PopCount(s.cache, b.parent), |s.chain| - 1;
    if k < |s.cache| {
      assert s.chain[n - k].id == s.chain[at].id;
    }
    if n - at < |s.cache| {
      assert s.cache[n - at].id == s.chain[at].id;
    }
  }

  lemma {:induction false} NotifyKeepsChain(s: State, at: nat, b: Block)
    requires Inv(s) && CanApply(s, at, b)
    ensures GoodChain(Notify(s, at, b).chain)
  {
  }

  /** The cache before it is cut to its greatest length. */
  function Pushed(s: State, b: Block): seq<Cached> {
    [Cached(b.id, Relevant(s.subs, b))] + s.cache[PopCount(s.cache, b.parent)..]
  }

  lemma {:induction false} PushedMirrors(s: State, at: nat, b: Block)
    requires Inv(s) && CanApply(s, at, b)
    ensures CacheMirrors(Notify(s, at, b).(cache := Pushed(s, b)))
  {
    PopsAbandoned(s, at, b);
    var k, n := PopCount(s.cache, b.parent), |s.chain| - 1;
    var chain, pushed := s.chain[..at + 1] + [b], Pushed(s, b);
    forall i | 0 <= i < |pushed|
      ensures pushed[i].id == chain[|chain| - 1 - i].id && pushed[i].logs <= LogsOf(chain[|chain| - 1 - i])
    {
      if i > 0 {
        assert pushed[i] == s.cache[k + i - 1];
        assert chain[|chain| - 1 - i] == s.chain[n - (k + i - 1)];
      }
    }
  }

  lemma {:induction false} PushedComplete(s: State, at: nat, b: Block, id: nat)
    requires Inv(s) && CanApply(s, at, b) && id in s.subs
    requires |Pushed(s, b)| <= at + 2
    ensures CacheComplete(Notify(s, at, b).(cache := Pushed(s, b)), Notify(s, at, b).subs[id])
  {
    PopsAbandoned(s, at, b);
    var k, n := PopCount(s.cache, b.parent), |s.chain| - 1;
    var chain, pushed := s.chain[..at + 1] + [b], Pushed(s, b);
    var sub := Notify(s, at, b).subs[id];
    forall i | 0 <= i < |pushed| && pushed[i].id in sub.since
      ensures Matching(sub.filter, LogsOf(chain[|chain| - 1 - i])) <= pushed[i].logs
    {
      if i > 0 {
        assert pushed[i] == s.cache[k + i - 1];
        assert chain[|chain| - 1 - i] == s.chain[n - (k + i - 1)];
      }
    }
  }

  lemma {:induction false} TruncateMirrors(s: State)
    requires CacheMirrors(s)
    ensures CacheMirrors(s.(cache := Truncate(s.cache)))
  {
  }

  lemma {:induction false} TruncateComplete(s: State, sub: Subscription)
    requires |s.cache| <= |s.chain| && CacheComplete(s, sub)
    ensures CacheComplete(s.(cache := Truncate(s.cache)), sub)
  {
  }

  lemma {:induction false} NotifyKeepsMirror(s: State, at: nat, b: Block)
    requires Inv(s) && CanApply(s, at, b)
    ensures CacheMirrors(Notify(s, at, b))
  {
    PushedMirrors(s, at, b);
    TruncateMirrors(Notify(s, at, b).(cache := Pushed(s, b)));
  }

  lemma {:induction false} NotifyKeepsComplete(s: State, at: nat, b: Block, id: nat)
    requires Inv(s) && CanApply(s, at, b) && id in s.subs
    requires |Notify(s, at, b).cache| <= |Notify(s, at, b).chain|
    ensures CacheComplete(Notify(s, at, b), Notify(s, at, b).subs[id])
  {
    PushedMirrors(s, at, b);
    PushedComplete(s, at, b, id);
    TruncateComplete(Notify(s, at, b).(cache := Pushed(s, b)), Notify(s, at, b).subs[id]);
  }

  lemma {:induction false} NotifyKeepsDeep(s: State, at: nat, b: Block, id: nat)
    requires Inv(s) && CanApply(s, at, b) && id in s.subs
    ensures UncachedAreDeep(Notify(s, at, b), Notify(s, at, b).subs[id])
  {
    PopsAbandoned(s, at, b);
    var t := Notify(s, at, b);
    forall i | 0 <= i < |t.chain| - |t.cache| && t.chain[i].id in t.subs[id].since
      ensures i + MAX_CACHED < t.high
    {
      if i == |t.chain| - 1 {
        assert false;
      }
      assert t.chain[i] == s.chain[i] && s.chain[i].id in s.subs[id].since;
    }
  }

  lemma {:induction false} NotifyKeepsInv(s: State, at: nat, b: Block)
    requires Inv(s) && CanApply(s, at, b)
    ensures Inv(Notify(s, at, b))
  {
    var t := Notify(s, at, b);
    NotifyKeepsChain(s, at, b);
    NotifyKeepsMirror(s, at, b);
    forall id | id in t.subs ensures CacheComplete(t, t.subs[id]) && UncachedAreDeep(t, t.subs[id]) {
      NotifyKeepsComplete(s, at, b, id);
      NotifyKeepsDeep(s, at, b, id);
    }
  }

  lemma {:induction false} StepKeepsInv(s: State, step: Step)
    requires Inv(s)
    ensures Inv(Apply(s, step))
  {
    match step
    case Subscribe(_, _) =>
    case Unsubscribe(_) =>
    case Applied(at, b) =>
      if CanApply(s, at, b) {
        NotifyKeepsInv(s, at, b);
      }
  }

  // ---------------------------------------------------------------- the view agrees with the chain

  /** A delivered log is taken back exactly when its block is abandoned and still cached. */
  lemma {:induction false} TakenBackIff(s: State, at: nat, b: Block, sub: Subscription, i: nat, l: Log)
    requires GoodChain(s.chain) && CacheMirrors(s) && CacheComplete(s, sub) && CanApply(s, at, b)
    requires i < |s.chain| && s.chain[i].id in sub.since && l in s.chain[i].logs && Matches(sub.filter, l)
    ensures l in CachedLogs(s.cache[..PopCount(s.cache, b.parent)]) <==> i > at && i >= Low(s)
  {
    var k, n := PopCount(s.cache, b.parent), |s.chain| - 1;
    PopsAbandoned(s, at, b);
    CachedLogsMember(s.cache[..k], l);
    if i > at && i >= Low(s) {
      assert s.cache[n - i].id == s.chain[i].id;
      assert l in Matching(sub.filter, LogsOf(s.chain[i]));
      assert l in s.cache[..k][n - i].logs;
    }
    if j :| 0 <= j < k && l in s.cache[..k][j].logs {
      assert l in LogsOf(s.chain[n - j]);
      assert s.chain[n - j].id == l.block == s.chain[i].id;
    }
  }

  /** Where an expected log comes from. */
  lemma {:induction false} ExpectedMember(chain: seq<Block>, f: Filter, since: set<nat>, l: Log)
    ensures l in Expected(chain, f, since)
      <==> Matches(f, l) && exists i :: 0 <= i < |chain| && chain[i].id in since && l in chain[i].logs
  {
  }

  /** The logs of the new block are delivered, those of kept blocks stay. */
  lemma {:induction false} ExpectedAfter(s: State, at: nat, b: Block, f: Filter, since: set<nat>, l: Log)
    requires CanApply(s, at, b)
    ensures l in Expected(s.chain[..at + 1] + [b], f, since + {b.id})
      <==> Matches(f, l) && (l in b.logs || exists i :: 0 <= i <= at && s.chain[i].id in since && l in s.chain[i].logs)
  {
    var chain := s.chain[..at + 1] + [b];
    ExpectedMember(chain, f, since + {b.id}, l);
    assert chain[at + 1] == b;
    if Matches(f, l) && !(l in b.logs) {
      if i :| 0 <= i < |chain| && chain[i].id in since + {b.id} && l in chain[i].logs {
        assert chain[i] == s.chain[i];
      }
      if i :| 0 <= i <= at && s.chain[i].id in since && l in s.chain[i].logs {
        assert chain[i] == s.chain[i];
      }
    }
  }

  lemma {:induction false} ViewAfter(s: State, at: nat, b: Block, sub: Subscription, l: Log)
    requires GoodChain(s.chain) && CacheMirrors(s) && CacheComplete(s, sub) && CanApply(s, at, b) && Exact(s, sub)
    ensures l in Deliver(sub, CachedLogs(s.cache[..PopCount(s.cache, b.parent)]), b).view
      <==> Matches(sub.filter, l) && (l in b.logs ||
             exists i :: 0 <= i < |s.chain| && s.chain[i].id in sub.since && l in s.chain[i].logs
               && (i <= at || i < Low(s)))
  {
    ExpectedMember(s.chain, sub.filter, sub.since, l);
    if Matches(sub.filter, l) {
      forall i | 0 <= i < |s.chain| && s.chain[i].id in sub.since && l in s.chain[i].logs
        ensures l in CachedLogs(s.cache[..PopCount(s.cache, b.parent)]) <==> i > at && i >= Low(s)
      {
        TakenBackIff(s, at, b, sub, i, l);
      }
    }
  }

  /** After a block is applied the client's view is exact again, unless an abandoned block with
      delivered logs had already dropped out of the cache, and then it is not. */
  lemma {:induction false} ExactIff(s: State, at: nat, b: Block, id: nat)
    requires Inv(s) && CanApply(s, at, b) && id in s.subs && Exact(s, s.subs[id])
    ensures Exact(Notify(s, at, b), Notify(s, at, b).subs[id]) <==> !Loses(s, s.subs[id], at)
  {
    var sub := s.subs[id];
    DeliverExactIff(s, at, b, sub);
  }

  lemma {:induction false} DeliverExactIff(s: State, at: nat, b: Block, sub: Subscription)
    requires GoodChain(s.chain) && CacheMirrors(s) && CacheComplete(s, sub) && CanApply(s, at, b) && Exact(s, sub)
    ensures Deliver(sub, CachedLogs(s.cache[..PopCount(s.cache, b.parent)]), b).view
         == Expected(s.chain[..at + 1] + [b], sub.filter, sub.since + {b.id})
      <==> !Loses(s, sub, at)
  {
    var view := Deliver(sub, CachedLogs(s.cache[..PopCount(s.cache, b.parent)]), b).view;
    var expected := Expected(s.chain[..at + 1] + [b], sub.filter, sub.since + {b.id});
    if Loses(s, sub, at) {
      var i, l :| at < i < |s.chain| - |s.cache| && s.chain[i].id in sub.since && l in s.chain[i].logs
        && Matches(sub.filter, l);
      ViewAfter(s, at, b, sub, l);
      ExpectedAfter(s, at, b, sub.filter, sub.since, l);
      assert l in view && l !in expected;
    } else {
      forall l ensures l in view <==> l in expected {
        ViewAfter(s, at, b, sub, l);
        ExpectedAfter(s, at, b, sub.filter, sub.since, l);
      }
    }
  }

  // ---------------------------------------------------------------- runs

  /** A node starts with some chain, nothing cached and nobody subscribed. */
  function Started(chain: seq<Block>): State {
    State(chain, [], map[], |chain|)
  }

  function Run(chain: seq<Block>, steps: seq<Step>): State {
    if steps == [] then Started(chain) else Apply(Run(chain, steps[..|steps| - 1]), steps[|steps| - 1])
  }

  /** No switch goes more than 100 blocks below the highest tip reached so far. */
  predicate ShallowStep(s: State, step: Step) {
    step.Applied? && CanApply(s, step.at, step.block) ==> s.high <= step.at + 101
  }

  predicate ShallowRun(chain: seq<Block>, steps: seq<Step>) {
    steps != [] ==>
      && ShallowRun(chain, steps[..|steps| - 1])
      && ShallowStep(Run(chain, steps[..|steps| - 1]), steps[|steps| - 1])
  }

  predicate AllExact(s: State) {
    forall id :: id in s.subs ==> Exact(s, s.subs[id])
  }

  lemma {:induction false} RunKeepsInv(chain: seq<Block>, steps: seq<Step>)
    requires chain != [] && GoodChain(chain)
    ensures Inv(Run(chain, steps))
  {
    if steps != [] {
      RunKeepsInv(chain, steps[..|steps| - 1]);
      StepKeepsInv(Run(chain, steps[..|steps| - 1]), steps[|steps| - 1]);
    }
  }

  lemma {:induction false} ShallowStepKeepsExact(s: State, step: Step)
    requires Inv(s) && AllExact(s) && ShallowStep(s, step)
    ensures AllExact(Apply(s, step))
  {
    if step.Applied? && CanApply(s, step.at, step.block) {
      forall id | id in s.subs ensures Exact(Apply(s, step), Apply(s, step).subs[id]) {
        ExactIff(s, step.at, step.block, id);
      }
    }
  }

  /** Every client's view is exactly the matching logs of the active chain since it subscribed, in
      every run whose switches stay within the cache. */
  lemma {:induction false} ViewsAreExact(chain: seq<Block>, steps: seq<Step>)
    requires chain != [] && GoodChain(chain) && ShallowRun(chain, steps)
    ensures AllExact(Run(chain, steps))
  {
    if steps != [] {
      ViewsAreExact(chain, steps[..|steps| - 1]);
      RunKeepsInv(chain, steps[..|steps| - 1]);
      ShallowStepKeepsExact(Run(chain, steps[..|steps| - 1]), steps[|steps| - 1]);
    }
  }

  // ---------------------------------------------------------------- what a subscription covers

  /** A block with a new identifier and its own logs on top of a block of the chain becomes the tip, and every
      subscription covers it from then on. */
  lemma {:induction false} AppliedBecomesTip(s: State, at: nat, b: Block)
    requires at < |s.chain| && b.parent == s.chain[at].id
    requires (forall i :: 0 <= i < |s.chain| ==> s.chain[i].id != b.id) && (forall l :: l in b.logs ==> l.block == b.id)
    ensures var t := Apply(s, Applied(at, b));
      && t.chain == s.chain[..at + 1] + [b] && t.subs.Keys == s.subs.Keys
      && forall id :: id in s.subs ==>
           t.subs[id].filter == s.subs[id].filter && t.subs[id].since == s.subs[id].since + {b.id}
  {
  }

  /** Subscribing and unsubscribing concern one subscription and not the chain. */
  lemma {:induction false} OthersUntouched(s: State, step: Step)
    requires !step.Applied?
    ensures var t := Apply(s, step);
      && t.chain == s.chain
      && (step.Subscribe? ==> step.id in t.subs && t.subs[step.id] == Subscription(step.filter, {}, {}))
      && (step.Unsubscribe? ==> step.id !in t.subs)
      && forall id :: id != step.id ==> (id in t.subs <==> id in s.subs) && (id in s.subs ==> t.subs[id] == s.subs[id])
  {
  }

  /** Identifiers of the blocks that the steps from number m on applied. */
  function AppliedFrom(chain: seq<Block>, steps: seq<Step>, m: nat): set<nat>
    requires m <= |steps|
  {
    set k | m <= k < |steps| && steps[k].Applied? && CanApply(Run(chain, steps[..k]), steps[k].at, steps[k].block)
      :: steps[k].block.id
  }

  lemma {:induction false} AppliedFromSnoc(chain: seq<Block>, steps: seq<Step>, m: nat)
    requires m < |steps|
    ensures var n := |steps| - 1;
      AppliedFrom(chain, steps, m) == AppliedFrom(chain, steps[..n], m) +
        if steps[n].Applied? && CanApply(Run(chain, steps[..n]), steps[n].at, steps[n].block)
        then {steps[n].block.id} else {}
  {
    var n := |steps| - 1;
    assert forall k :: 0 <= k <= n ==> steps[..n][..k] == steps[..k];
    forall x | x in AppliedFrom(chain, steps, m) && (steps[n].Applied? ==> x != steps[n].block.id)
      ensures x in AppliedFrom(chain, steps[..n], m)
    {
      var k :| m <= k < |steps| && steps[k].Applied? && steps[k].block.id == x
        && CanApply(Run(chain, steps[..k]), steps[k].at, steps[k].block);
      assert steps[..n][k] == steps[k];
    }
    forall x | x in AppliedFrom(chain, steps[..n], m) ensures x in AppliedFrom(chain, steps, m) {
      var k :| m <= k < n && steps[..n][k].Applied? && steps[..n][k].block.id == x
        && CanApply(Run(chain, steps[..n][..k]), steps[..n][k].at, steps[..n][k].block);
      assert steps[k] == steps[..n][k];
    }
  }

  /** Step m makes the subscription and no later one replaces or ends it. */
  predicate Subscribed(steps: seq<Step>, m: nat, id: nat, f: Filter) {
    && m < |steps| && steps[m] == Subscribe(id, f)
    && forall k :: m < k < |steps| && !steps[k].Applied? ==> steps[k].id != id
  }

  lemma {:induction false} CoversApplied(chain: seq<Block>, steps: seq<Step>, m: nat, id: nat, f: Filter)
    requires Subscribed(steps, m, id, f)
    ensures id in Run(chain, steps).subs && Run(chain, steps).subs[id].filter == f
    ensures Run(chain, steps).subs[id].since == AppliedFrom(chain, steps, m + 1)
  {
    var n := |steps| - 1;
    if m < n {
      CoversApplied(chain, steps[..n], m, id, f);
      AppliedFromSnoc(chain, steps, m + 1);
    }
  }

  /** A client that subscribed at step m holds, after every run with shallow switches, the logs that match its
      filter of those blocks applied since then that are still active, and no others. */
  lemma {:induction false} ClientHolds(chain: seq<Block>, steps: seq<Step>, m: nat, id: nat, f: Filter)
    requires chain != [] && GoodChain(chain) && ShallowRun(chain, steps) && Subscribed(steps, m, id, f)
    ensures id in Run(chain, steps).subs
    ensures Run(chain, steps).subs[id].view == Expected(Run(chain, steps).chain, f, AppliedFrom(chain, steps, m + 1))
  {
    CoversApplied(chain, steps, m, id, f);
    ViewsAreExact(chain, steps);
    assert Exact(Run(chain, steps), Run(chain, steps).subs[id]);
  }

  // ---------------------------------------------------------------- one block too deep

  const ROOT: seq<Block> := [Block(0, 0, [])]

  const EVERYTHING: Filter := Filter([], [])

  function Numbered(i: nat): Block
    requires i > 0
  {
    Block(i, i - 1, [Log(i, 0, 0, [])])
  }

  /** Subscribe to everything, then apply n blocks with one log each. */
  function LongRun(n: nat): seq<Step> {
    if n == 0 then [Subscribe(0, EVERYTHING)] else LongRun(n - 1) + [Applied(n - 1, Numbered(n))]
  }

  predicate LongState(s: State, n: nat) {
    && |s.chain| == n + 1 && s.chain[0] == ROOT[0] && (forall i :: 1 <= i <= n ==> s.chain[i] == Numbered(i))
    && |s.cache| == (if n < MAX_CACHED then n else MAX_CACHED)
    && 0 in s.subs && s.subs[0].filter == EVERYTHING && (forall i :: 1 <= i <= n ==> i in s.subs[0].since)
  }

  lemma {:induction false} LongStep(s: State, n: nat)
    requires Inv(s) && LongState(s, n)
    ensures CanApply(s, n, Numbered(n + 1)) && LongState(Notify(s, n, Numbered(n + 1)), n + 1)
  {
    PopsAbandoned(s, n, Numbered(n + 1));
  }

  lemma {:induction false} LongRunState(n: nat)
    ensures LongState(Run(ROOT, LongRun(n)), n)
  {
    RunKeepsInv(ROOT, LongRun(n));
    if n == 0 {
      assert LongRun(0)[..0] == [];
    } else {
      LongRunState(n - 1);
      RunKeepsInv(ROOT, LongRun(n - 1));
      LongStep(Run(ROOT, LongRun(n - 1)), n - 1);
      assert LongRun(n)[..|LongRun(n)| - 1] == LongRun(n - 1);
    }
  }

  /** No block of the long run leaves the tip. */
  lemma {:induction false} LongRunIsShallow(n: nat)
    ensures ShallowRun(ROOT, LongRun(n)) && Run(ROOT, LongRun(n)).high == n + 1
  {
    LongRunState(n);
    if n == 0 {
      assert LongRun(0)[..0] == [];
    } else {
      LongRunIsShallow(n - 1);
      LongRunState(n - 1);
      assert LongRun(n)[..|LongRun(n)| - 1] == LongRun(n - 1);
      LongHigh(Run(ROOT, LongRun(n - 1)), n - 1);
    }
  }

  lemma {:induction false} LongHigh(s: State, n: nat)
    requires LongState(s, n) && s.high == n + 1
    ensures Apply(s, Applied(n, Numbered(n + 1))).high == n + 2
  {
  }

  /** A block on the start abandons everything. */
  const BACK: Block := Block(1000, 0, [])

  lemma {:induction false} LongStateLoses(s: State)
    requires LongState(s, MAX_CACHED + 1)
    ensures CanApply(s, 0, BACK) && Loses(s, s.subs[0], 0)
  {
    var l := Log(1, 0, 0, []);
    assert s.chain[1] == Numbered(1) && l in s.chain[1].logs && Matches(EVERYTHING, l);
  }

  /** After 101 blocks the client's view is exact; a switch back to the start leaves it inexact. */
  lemma {:induction false} DeepSwitchLeavesStaleLog(n: nat)
    requires n == 101
    ensures var s := Run(ROOT, LongRun(n));
      && CanApply(s, 0, BACK) && 0 in s.subs && Exact(s, s.subs[0])
      && !Exact(Apply(s, Applied(0, BACK)), Apply(s, Applied(0, BACK)).subs[0])
  {
    LongRunState(n);
    LongRunIsShallow(n);
    RunKeepsInv(ROOT, LongRun(n));
    ViewsAreExact(ROOT, LongRun(n));
    LongStateLoses(Run(ROOT, LongRun(n)));
    ExactIff(Run(ROOT, LongRun(n)), 0, BACK, 0);
  }
}
