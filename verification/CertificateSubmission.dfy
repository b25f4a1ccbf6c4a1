/**
 Collecting certificate signatures for one withdrawal epoch and submitting certificates of growing
 quality, while other submitters may do the same.
 */
module CertificateSubmission {
  import opened Collections

  /** Number of signers' keys and of signatures a certificate needs. */
  datatype Params = Params(keys: nat, threshold: nat)

  /** Building uses the signatures collected in the current window.  A proof that is still being made when
      the window is left keeps its own copy of them, `seen` in number. */
  datatype Phase = Idle | Scheduled | Building(quality: nat) | Detached(quality: nat, seen: nat)

  /** `open` tells whether the node is inside the submission window; `known` holds key indexes in order of
      arrival; `top` is the best quality the mainchain knows, in its mempool or on its chain; `sent` lists
      the qualities this node has sent. */
  datatype State = State(open: bool, known: seq<nat>, phase: Phase, top: nat, sent: seq<nat>, enabled: bool)

  const INITIAL := State(false, [], Idle, 0, [], true)

  /** The mainchain node answers, fails in a way that leaves the answer open, or cannot be reached. */
  datatype Reply = Answer | McError | Unreachable

  datatype Event =
    | Enter                                                // a block inside the window of this epoch
    | Leave                                                // a block outside of it
    | Signature(index: int, genuine: bool, reply: Reply)   // own or remote; checked against the key
    | Timer(reply: Reply)
    | ProofReady(reply: Reply, accepted: bool)             // what the mainchain says to a certificate sent
    | ProofFailed
    | OtherCertificate(quality: nat)
    | Forgotten(quality: nat)                              // a reorganisation leaves this best quality
    | Disable
    | Enable(reply: Reply)

  /** Submit if there are enough signatures and more than the best certificate has; when the mainchain
      answers with an error, submit anyway. */
  predicate CheckQuality(p: Params, signatures: nat, top: nat, reply: Reply) {
    && signatures >= p.threshold
    && match reply
       case Answer => signatures > top
       case McError => true
       case Unreachable => false
  }

  function Max(a: nat, b: nat): nat {
    if a < b then b else a
  }

  function Schedule(p: Params, s: State, reply: Reply): State {
    if s.open && s.enabled && s.phase.Idle? && CheckQuality(p, |s.known|, s.top, reply) then s.(phase := Scheduled)
    else s
  }

  /** A proof is being made. */
  predicate Busy(s: State) {
    s.phase.Building? || s.phase.Detached?
  }

  /** The timer event starts a proof. */
  predicate Starts(p: Params, s: State, e: Event) {
    e.Timer? && s.phase.Scheduled? && CheckQuality(p, |s.known|, s.top, e.reply)
  }

  /** The event sends the certificate whose proof is ready; the signatures are counted once more. */
  predicate Sends(p: Params, s: State, e: Event) {
    && e.ProofReady? && Busy(s)
    && CheckQuality(p, if s.phase.Building? then |s.known| else s.phase.seen, s.top, e.reply)
  }

  function Apply(p: Params, s: State, e: Event): State {
    match e
    case Enter => s.(open := true)
    case Leave =>
      s.(open := false, known := [],
         phase := if s.phase.Building? then Detached(s.phase.quality, |s.known|)
                  else if s.phase.Scheduled? then Idle
                  else s.phase)
    case Signature(i, genuine, reply) =>
      if s.open && 0 <= i < p.keys && genuine && i !in s.known then Schedule(p, s.(known := s.known + [i]), reply)
      else s
    case Timer(reply) =>
      if !s.phase.Scheduled? then s
      else s.(phase := if Starts(p, s, e) then Building(|s.known|) else Idle)
    case ProofReady(reply, accepted) =>
      if !Busy(s) then s
      else if Sends(p, s, e) then
        s.(phase := Idle, sent := s.sent + [s.phase.quality],
           top := if accepted then Max(s.top, s.phase.quality) else s.top)
      else s.(phase := Idle)
    case ProofFailed => if Busy(s) then s.(phase := Idle) else s
    case OtherCertificate(q) => s.(top := Max(s.top, q))
    case Forgotten(q) => if q < s.top then s.(top := q) else s
    case Disable => s.(enabled := false)
    case Enable(reply) => if s.enabled then s else Schedule(p, s.(enabled := true), reply)
  }

  function Run(p: Params, events: seq<Event>): State {
    if events == [] then INITIAL else Apply(p, Run(p, events[..|events| - 1]), events[|events| - 1])
  }

  // ---------------------------------------------------------------- what every run keeps

  predicate Increasing(xs: seq<nat>) {
    forall i, k :: 0 <= i < k < |xs| ==> xs[i] < xs[k]
  }

  /** Signatures are by different keys, and every certificate has between threshold and all of them. */
  predicate Basic(p: Params, s: State) {
    && Distinct(s.known) && (forall i :: 0 <= i < |s.known| ==> s.known[i] < p.keys) && |s.known| <= p.keys
    && (!s.open ==> s.known == [] && !s.phase.Scheduled? && !s.phase.Building?)
    && (s.phase.Building? ==> p.threshold <= s.phase.quality <= |s.known|)
    && (s.phase.Detached? ==> p.threshold <= s.phase.quality <= s.phase.seen <= p.keys)
    && (forall i :: 0 <= i < |s.sent| ==> p.threshold <= s.sent[i] <= p.keys)
  }

  lemma {:induction false} StepKeepsBasic(p: Params, s: State, e: Event)
    requires Basic(p, s)
    ensures Basic(p, Apply(p, s, e))
  {
    if e.Signature? && 0 <= e.index < p.keys && e.index !in s.known {
      DistinctIsShort(s.known + [e.index], p.keys);
    }
  }

  lemma {:induction false} RunIsBasic(p: Params, events: seq<Event>)
    ensures Basic(p, Run(p, events))
  {
    if events != [] {
      RunIsBasic(p, events[..|events| - 1]);
      StepKeepsBasic(p, Run(p, events[..|events| - 1]), events[|events| - 1]);
    }
  }

  // ---------------------------------------------------------------- which signatures are known

  /** Before event k the node is inside the window: it has entered it and not left it since. */
  predicate Inside(events: seq<Event>, k: nat) {
    exists j :: 0 <= j < k <= |events| && events[j].Enter? && NoLeave(events, j, k)
  }

  predicate NoLeave(events: seq<Event>, j: nat, k: nat) {
    forall m :: j < m < k && m < |events| ==> !events[m].Leave?
  }

  /** A genuine signature of key i arrived inside the window, and the window has not been left since. */
  predicate Arrived(events: seq<Event>, i: nat) {
    exists k :: 0 <= k < |events| && IsGenuine(events[k], i) && Inside(events, k) && NoLeave(events, k, |events|)
  }

  predicate IsGenuine(e: Event, i: nat) {
    e.Signature? && e.index == i && e.genuine
  }

  lemma {:induction false} InsideSnoc(events: seq<Event>, e: Event)
    ensures Inside(events + [e], |events| + 1) <==> e.Enter? || (Inside(events, |events|) && !e.Leave?)
  {
    var all, n := events + [e], |events|;
    assert all[n] == e && forall m :: 0 <= m < n ==> all[m] == events[m];
    if e.Enter? {
      assert NoLeave(all, n, n + 1);
    }
    if j :| 0 <= j < n <= |events| && events[j].Enter? && NoLeave(events, j, n) {
      assert all[j].Enter? && (!e.Leave? ==> NoLeave(all, j, n + 1));
    }
    if j :| 0 <= j < n + 1 <= |all| && all[j].Enter? && NoLeave(all, j, n + 1) {
      assert j < n ==> events[j].Enter? && NoLeave(events, j, n);
    }
  }

  lemma {:induction false} InsidePrefix(events: seq<Event>, e: Event, k: nat)
    requires k <= |events|
    ensures Inside(events + [e], k) <==> Inside(events, k)
  {
    var all := events + [e];
    assert forall m :: 0 <= m < |events| ==> all[m] == events[m];
    if j :| 0 <= j < k <= |events| && events[j].Enter? && NoLeave(events, j, k) {
      assert NoLeave(all, j, k);
    }
    if j :| 0 <= j < k <= |all| && all[j].Enter? && NoLeave(all, j, k) {
      assert NoLeave(events, j, k);
    }
  }

  lemma {:induction false} ArrivedSnoc(events: seq<Event>, e: Event, i: nat)
    ensures Arrived(events + [e], i) <==>
      !e.Leave? && (Arrived(events, i) || (IsGenuine(e, i) && Inside(events, |events|)))
  {
    var all, n := events + [e], |events|;
    assert all[n] == e && forall m :: 0 <= m < n ==> all[m] == events[m];
    if k :| 0 <= k < |all| && IsGenuine(all[k], i) && Inside(all, k) && NoLeave(all, k, |all|) {
      InsidePrefix(events, e, k);
      assert k < n ==> NoLeave(events, k, n) && IsGenuine(events[k], i);
    }
    if k :| 0 <= k < n && IsGenuine(events[k], i) && Inside(events, k) && NoLeave(events, k, n) {
      InsidePrefix(events, e, k);
      assert !e.Leave? ==> NoLeave(all, k, n + 1) && IsGenuine(all[k], i);
    }
    if IsGenuine(e, i) && Inside(events, n) {
      InsidePrefix(events, e, n);
      assert NoLeave(all, n, n + 1);
    }
  }

  lemma {:induction false} KnownStep(p: Params, s: State, e: Event, i: nat)
    ensures Apply(p, s, e).open <==> e.Enter? || (s.open && !e.Leave?)
    ensures i in Apply(p, s, e).known <==>
      !e.Leave? && (i in s.known || (s.open && i < p.keys && IsGenuine(e, i)))
  {
  }

  /** In every run the known signatures are exactly the genuine ones of the signers' keys that arrived while
      the node was inside the window it is in now. */
  lemma {:induction false} KnownIff(p: Params, events: seq<Event>, i: nat)
    ensures Run(p, events).open <==> Inside(events, |events|)
    ensures i in Run(p, events).known <==> i < p.keys && Arrived(events, i)
  {
    if events != [] {
      var n := |events| - 1;
      KnownIff(p, events[..n], i);
      KnownStep(p, Run(p, events[..n]), events[n], i);
      InsideSnoc(events[..n], events[n]);
      ArrivedSnoc(events[..n], events[n], i);
      assert events == events[..n] + [events[n]];
    }
  }

  // ---------------------------------------------------------------- when something is scheduled, built and sent

  /** Enough signatures, and more than the mainchain's best certificate has unless that cannot be told. */
  predicate Worthwhile(p: Params, signatures: nat, top: nat, reply: Reply) {
    signatures >= p.threshold && ((reply == Answer && signatures > top) || reply == McError)
  }

  /** From an idle and enabled submitter inside the window, a new genuine signature that makes a certificate
      worthwhile leads to that certificate, step by step. */
  lemma {:induction false} Progress(p: Params, s: State, i: nat, reply: Reply, accepted: bool)
    requires s.open && s.enabled && s.phase.Idle? && i < p.keys && i !in s.known
    ensures var a := Apply(p, s, Signature(i, true, reply));
      var b := Apply(p, a, Timer(reply));
      var c := Apply(p, b, ProofReady(reply, accepted));
      && a.known == s.known + [i]
      && (Worthwhile(p, |s.known| + 1, s.top, reply) ==>
            && a.phase.Scheduled? && b.phase == Building(|s.known| + 1) && c.phase.Idle?
            && c.sent == s.sent + [|s.known| + 1]
            && c.top == if accepted then Max(s.top, |s.known| + 1) else s.top)
      && (!Worthwhile(p, |s.known| + 1, s.top, reply) ==> a.phase.Idle? && b == a && c == a && a.sent == s.sent)
  {
  }

  /** Switching the submitter on has it try what it already knows. */
  lemma {:induction false} EnableTries(p: Params, s: State, reply: Reply)
    requires s.open && !s.enabled && s.phase.Idle?
    ensures Apply(p, s, Enable(reply)).phase.Scheduled? <==> Worthwhile(p, |s.known|, s.top, reply)
  {
  }

  /** The timer's check looks at what is known then. */
  lemma {:induction false} TimerBuildsIff(p: Params, s: State, reply: Reply)
    requires s.phase.Scheduled?
    ensures Apply(p, s, Timer(reply)).phase
         == if Worthwhile(p, |s.known|, s.top, reply) then Building(|s.known|) else Idle
  {
  }

  lemma {:induction false} StillBuilding(p: Params, s: State, events: seq<Event>)
    requires s.phase.Building? && forall k :: 0 <= k < |events| ==> !Ends(events[k]) && !events[k].Leave?
    ensures RunFrom(p, s, events).phase == s.phase && RunFrom(p, s, events).sent == s.sent
  {
    if events != [] {
      StillBuilding(p, s, events[..|events| - 1]);
    }
  }

  /** A finished proof is sent, with the quality it was started with, if and only if a certificate is
      worthwhile by the signatures and the best certificate known when it is ready. */
  lemma {:induction false} ReadyIsSentIff(p: Params, s: State, events: seq<Event>, reply: Reply, accepted: bool)
    requires s.phase.Building? && forall k :: 0 <= k < |events| ==> !Ends(events[k]) && !events[k].Leave?
    ensures var t := RunFrom(p, s, events);
      Apply(p, t, ProofReady(reply, accepted)).sent
        == if Worthwhile(p, |t.known|, t.top, reply) then s.sent + [s.phase.quality] else s.sent
  {
    StillBuilding(p, s, events);
  }

  lemma {:induction false} StillDetached(p: Params, s: State, events: seq<Event>)
    requires s.phase.Detached? && forall k :: 0 <= k < |events| ==> !Ends(events[k])
    ensures RunFrom(p, s, events).phase == s.phase && RunFrom(p, s, events).sent == s.sent
  {
    if events != [] {
      StillDetached(p, s, events[..|events| - 1]);
    }
  }

  /** When the window is left meanwhile, the signatures known at that moment are what counts. */
  lemma {:induction false} LeftIsSentIff(p: Params, s: State, events: seq<Event>, reply: Reply, accepted: bool)
    requires s.phase.Building? && forall k :: 0 <= k < |events| ==> !Ends(events[k])
    ensures var t := RunFrom(p, Apply(p, s, Leave), events);
      Apply(p, t, ProofReady(reply, accepted)).sent
        == if Worthwhile(p, |s.known|, t.top, reply) then s.sent + [s.phase.quality] else s.sent
  {
    StillDetached(p, Apply(p, s, Leave), events);
  }

  function UnderWay(s: State): nat {
    if s.phase.Idle? then 0 else 1
  }

  /** A submitter that is switched off sends at most what is under way. */
  lemma {:induction false} DisabledSendsNoMore(p: Params, s: State, events: seq<Event>)
    requires !s.enabled && forall k :: 0 <= k < |events| ==> !events[k].Enable?
    ensures var t := RunFrom(p, s, events);
      !t.enabled && |t.sent| + UnderWay(t) <= |s.sent| + UnderWay(s)
  {
    if events != [] {
      DisabledSendsNoMore(p, s, events[..|events| - 1]);
    }
  }

  /** And so does one outside the window. */
  lemma {:induction false} OutsideSendsNoMore(p: Params, s: State, events: seq<Event>)
    requires !s.open && forall k :: 0 <= k < |events| ==> !events[k].Enter?
    ensures var t := RunFrom(p, s, events);
      !t.open && |t.sent| + UnderWay(t) <= |s.sent| + UnderWay(s)
  {
    if events != [] {
      OutsideSendsNoMore(p, s, events[..|events| - 1]);
    }
  }

  // ---------------------------------------------------------------- a mainchain that answers and remembers

  /** Qualities sent increase and never pass the best known quality. */
  predicate Ordered(s: State) {
    && Increasing(s.sent)
    && (forall i :: 0 <= i < |s.sent| ==> s.sent[i] <= s.top)
    && (Busy(s) ==> forall i :: 0 <= i < |s.sent| ==> s.sent[i] < s.phase.quality)
  }

  /** No error when a proof is started, no certificate turned down, none forgotten. */
  predicate Reliable(e: Event) {
    && (e.Timer? ==> e.reply != McError)
    && (e.ProofReady? ==> e.accepted)
    && !e.Forgotten?
  }

  predicate McReliable(events: seq<Event>) {
    forall i :: 0 <= i < |events| ==> Reliable(events[i])
  }

  lemma {:induction false} StepKeepsOrdered(p: Params, s: State, e: Event)
    requires Basic(p, s) && Ordered(s) && Reliable(e)
    ensures Ordered(Apply(p, s, e))
  {
  }

  lemma {:induction false} RunIsOrdered(p: Params, events: seq<Event>)
    requires McReliable(events)
    ensures Ordered(Run(p, events))
  {
    if events != [] {
      RunIsBasic(p, events[..|events| - 1]);
      RunIsOrdered(p, events[..|events| - 1]);
      StepKeepsOrdered(p, Run(p, events[..|events| - 1]), events[|events| - 1]);
    }
  }

  /** For any interleaving of signatures, timers, other submitters and visits to the window, certificates
      carry at least `threshold` different keys' signatures, their qualities increase strictly, and there
      are at most keys - threshold + 1 of them. */
  lemma {:induction false} FewCertificates(p: Params, events: seq<Event>)
    requires McReliable(events) && p.threshold <= p.keys
    ensures Increasing(Run(p, events).sent)
    ensures forall i :: 0 <= i < |Run(p, events).sent| ==> p.threshold <= Run(p, events).sent[i] <= p.keys
    ensures |Run(p, events).sent| <= p.keys - p.threshold + 1
  {
    RunIsBasic(p, events);
    RunIsOrdered(p, events);
    IncreasingIsShort(Run(p, events).sent, p.threshold, p.keys);
  }

  lemma {:induction false} IncreasingIsShort(xs: seq<nat>, lo: nat, hi: nat)
    requires Increasing(xs) && lo <= hi && forall i :: 0 <= i < |xs| ==> lo <= xs[i] <= hi
    ensures |xs| <= hi - lo + 1
    ensures xs != [] ==> xs[|xs| - 1] >= lo + |xs| - 1
  {
    if xs != [] {
      var n := |xs| - 1;
      IncreasingIsShort(xs[..n], lo, hi);
      assert n > 0 ==> xs[n - 1] < xs[n];
    }
  }

  // ---------------------------------------------------------------- whatever the mainchain does

  function LastSent(s: State): nat {
    if s.sent == [] then 0 else s.sent[|s.sent| - 1]
  }

  /** The event sends a certificate of the quality sent last. */
  predicate Repeats(p: Params, s: State, e: Event) {
    Sends(p, s, e) && s.sent != [] && s.phase.quality == LastSent(s)
  }

  /** The event sends a certificate of a lower quality than the last one. */
  predicate Falls(p: Params, s: State, e: Event) {
    Sends(p, s, e) && s.phase.quality < LastSent(s)
  }

  function One(b: bool): nat {
    if b then 1 else 0
  }

  function RepeatCount(p: Params, events: seq<Event>): nat {
    if events == [] then 0
    else
      var n := |events| - 1;
      RepeatCount(p, events[..n]) + One(Repeats(p, Run(p, events[..n]), events[n]))
  }

  function FallCount(p: Params, events: seq<Event>): nat {
    if events == [] then 0
    else
      var n := |events| - 1;
      FallCount(p, events[..n]) + One(Falls(p, Run(p, events[..n]), events[n]))
  }

  function EnableCount(events: seq<Event>): nat {
    if events == [] then 0
    else EnableCount(events[..|events| - 1]) + One(events[|events| - 1].Enable?)
  }

  function LeaveCount(events: seq<Event>): nat {
    if events == [] then 0
    else LeaveCount(events[..|events| - 1]) + One(events[|events| - 1].Leave?)
  }

  /** The quality after which the next proof comes: that of the running one, or of the last one sent. */
  function Latest(s: State): nat {
    if Busy(s) then s.phase.quality else LastSent(s)
  }

  /** Falls under way: in the running proof, and in what can be built from too few signatures. */
  function FallsDue(s: State): nat {
    One(Busy(s) && s.phase.quality < LastSent(s)) + One(|s.known| < Latest(s))
  }

  /** Falls and repetitions under way. */
  function StaleDue(s: State): nat {
    One(Busy(s) && s.sent != [] && s.phase.quality <= LastSent(s))
    + One(|s.known| < Latest(s) || (s.phase.Scheduled? && |s.known| == LastSent(s)))
  }

  /** Only leaving the window makes a lower quality possible. */
  lemma {:induction false} StepKeepsFallsDue(p: Params, s: State, e: Event)
    requires Basic(p, s)
    ensures FallsDue(Apply(p, s, e)) + One(Falls(p, s, e)) <= FallsDue(s) + One(e.Leave?)
  {
  }

  /** Only leaving the window or switching the submitter on makes a repetition possible. */
  lemma {:induction false} StepKeepsStaleDue(p: Params, s: State, e: Event)
    requires Basic(p, s)
    ensures StaleDue(Apply(p, s, e)) + One(Repeats(p, s, e)) + One(Falls(p, s, e))
         <= StaleDue(s) + One(e.Leave?) + One(e.Enable?)
  {
  }

  /** In every run, whatever the mainchain does, the quality falls at most once for each time the window
      was left, and falls and repetitions together are no more than the times the window was left or the
      submitter switched on. */
  lemma {:induction false} FallsAndRepeatsBounded(p: Params, events: seq<Event>)
    ensures FallCount(p, events) + FallsDue(Run(p, events)) <= LeaveCount(events)
    ensures FallCount(p, events) + RepeatCount(p, events) + StaleDue(Run(p, events))
         <= LeaveCount(events) + EnableCount(events)
  {
    if events != [] {
      var n := |events| - 1;
      FallsAndRepeatsBounded(p, events[..n]);
      RunIsBasic(p, events[..n]);
      StepKeepsFallsDue(p, Run(p, events[..n]), events[n]);
      StepKeepsStaleDue(p, Run(p, events[..n]), events[n]);
    }
  }

  predicate NeverDecreasing(xs: seq<nat>) {
    forall i, k :: 0 <= i < k < |xs| ==> xs[i] <= xs[k]
  }

  lemma {:induction false} StepNeverDecreasingIff(p: Params, s: State, e: Event)
    ensures NeverDecreasing(Apply(p, s, e).sent) <==> NeverDecreasing(s.sent) && !Falls(p, s, e)
  {
    var t := Apply(p, s, e);
    assert forall i :: 0 <= i < |s.sent| ==> s.sent[i] == t.sent[i];
    if Falls(p, s, e) && s.sent != [] {
      assert t.sent[|s.sent| - 1] > t.sent[|s.sent|];
    }
  }

  /** As long as the window is not left, qualities never decrease. */
  lemma {:induction false} SentNeverDecreases(p: Params, events: seq<Event>)
    ensures NeverDecreasing(Run(p, events).sent) <==> FallCount(p, events) == 0
    ensures LeaveCount(events) == 0 ==> NeverDecreasing(Run(p, events).sent)
  {
    FallsAndRepeatsBounded(p, events);
    if events != [] {
      var n := |events| - 1;
      SentNeverDecreases(p, events[..n]);
      StepNeverDecreasingIff(p, Run(p, events[..n]), events[n]);
    }
  }

  /** The last quality counts the certificates sent, repetitions apart and a full round for every fall. */
  predicate Counted(p: Params, s: State, repeats: nat, falls: nat)
    requires p.threshold <= p.keys
  {
    s.sent != [] ==>
      LastSent(s) + repeats + Rounds(falls, p.keys - p.threshold + 1) >= p.threshold + |s.sent| - 1
  }

  function Rounds(n: nat, size: nat): nat {
    if n == 0 then 0 else Rounds(n - 1, size) + size
  }

  lemma {:induction false} RoundsIsProduct(n: nat, size: nat)
    ensures Rounds(n, size) == n * size
  {
    if n > 0 {
      RoundsIsProduct(n - 1, size);
    }
  }

  predicate InRange(p: Params, s: State) {
    LastSent(s) <= p.keys && (Busy(s) ==> p.threshold <= s.phase.quality <= p.keys)
  }

  lemma {:induction false} RunIsInRange(p: Params, events: seq<Event>)
    ensures InRange(p, Run(p, events))
  {
    RunIsBasic(p, events);
  }

  lemma {:induction false} StepKeepsCounted(p: Params, s: State, e: Event, repeats: nat, falls: nat)
    requires p.threshold <= p.keys && InRange(p, s) && Counted(p, s, repeats, falls)
    ensures Counted(p, Apply(p, s, e), repeats + One(Repeats(p, s, e)), falls + One(Falls(p, s, e)))
  {
  }

  lemma {:induction false} RunIsCounted(p: Params, events: seq<Event>)
    requires p.threshold <= p.keys
    ensures Counted(p, Run(p, events), RepeatCount(p, events), FallCount(p, events))
  {
    if events != [] {
      var n := |events| - 1;
      RunIsCounted(p, events[..n]);
      RunIsInRange(p, events[..n]);
      StepKeepsCounted(p, Run(p, events[..n]), events[n], RepeatCount(p, events[..n]), FallCount(p, events[..n]));
    }
  }

  /** In every run there are at most keys - threshold + 1 certificates, as many again for each time the
      window was left, and one for each time it was left or the submitter switched on. */
  lemma {:induction false} CertificatesBounded(p: Params, events: seq<Event>)
    requires p.threshold <= p.keys
    ensures |Run(p, events).sent|
         <= (p.keys - p.threshold + 1) * (1 + LeaveCount(events)) + LeaveCount(events) + EnableCount(events)
  {
    RunIsCounted(p, events);
    RunIsInRange(p, events);
    FallsAndRepeatsBounded(p, events);
    RoundsBounded(FallCount(p, events), LeaveCount(events), p.keys - p.threshold + 1);
  }

  lemma {:induction false} RoundsBounded(m: nat, n: nat, size: nat)
    requires m <= n
    ensures Rounds(m, size) + size <= size * (1 + n)
  {
    RoundsIsProduct(m, size);
    assert size * (m + 1) <= size * (1 + n);
  }

  // ---------------------------------------------------------------- when qualities increase

  /** A proof is started with no more signatures than the last certificate sent had. */
  predicate StartsStale(p: Params, events: seq<Event>, i: nat) {
    && i < |events| && Starts(p, Run(p, events[..i]), events[i])
    && Run(p, events[..i]).sent != [] && |Run(p, events[..i]).known| <= LastSent(Run(p, events[..i]))
  }

  predicate Ends(e: Event) {
    e.ProofReady? || e.ProofFailed?
  }

  /** The proof started by event i is ready at event j and the last check lets it pass. */
  predicate Confirms(p: Params, events: seq<Event>, i: nat, j: nat) {
    && i < j < |events| && Sends(p, Run(p, events[..j]), events[j])
    && forall k :: i < k < j ==> !Ends(events[k])
  }

  lemma {:induction false} RunStep(p: Params, events: seq<Event>, n: nat)
    requires n < |events|
    ensures Run(p, events[..n + 1]) == Apply(p, Run(p, events[..n]), events[n])
  {
    assert events[..n + 1][..n] == events[..n];
  }

  lemma {:induction false} BusyStep(p: Params, s: State, e: Event)
    requires Busy(s)
    ensures Busy(Apply(p, s, e)) <==> !Ends(e)
    ensures !Ends(e) ==> Apply(p, s, e).phase.quality == s.phase.quality && Apply(p, s, e).sent == s.sent
  {
  }

  lemma {:induction false} StartStep(p: Params, s: State, e: Event)
    requires !Busy(s)
    ensures Busy(Apply(p, s, e)) <==> Starts(p, s, e)
    ensures Starts(p, s, e) ==> Apply(p, s, e).phase.quality == |s.known| && Apply(p, s, e).sent == s.sent
  {
  }

  /** What one event of a run does to a proof that is being made, and to one that is not. */
  lemma {:induction false} BusyRun(p: Params, events: seq<Event>, n: nat)
    requires n < |events|
    ensures Busy(Run(p, events[..n])) ==>
      && (Busy(Run(p, events[..n + 1])) <==> !Ends(events[n]))
      && (!Ends(events[n]) ==>
            && Run(p, events[..n + 1]).phase.quality == Run(p, events[..n]).phase.quality
            && Run(p, events[..n + 1]).sent == Run(p, events[..n]).sent)
    ensures !Busy(Run(p, events[..n])) ==>
      && (Busy(Run(p, events[..n + 1])) <==> Starts(p, Run(p, events[..n]), events[n]))
      && (Starts(p, Run(p, events[..n]), events[n]) ==>
            && Run(p, events[..n + 1]).phase.quality == |Run(p, events[..n]).known|
            && Run(p, events[..n + 1]).sent == Run(p, events[..n]).sent)
  {
    RunStep(p, events, n);
    if Busy(Run(p, events[..n])) {
      BusyStep(p, Run(p, events[..n]), events[n]);
    } else {
      StartStep(p, Run(p, events[..n]), events[n]);
    }
  }

  /** Until it ends, a proof keeps its quality and nothing is sent. */
  lemma {:induction false} StaysBusy(p: Params, events: seq<Event>, i: nat, j: nat)
    requires i < j <= |events| && Busy(Run(p, events[..i]))
    requires forall k :: i <= k < j ==> !Ends(events[k])
    ensures Busy(Run(p, events[..j])) && Run(p, events[..j]).phase.quality == Run(p, events[..i]).phase.quality
    ensures Run(p, events[..j]).sent == Run(p, events[..i]).sent
  {
    if i < j - 1 {
      StaysBusy(p, events, i, j - 1);
    }
    BusyRun(p, events, j - 1);
  }

  lemma {:induction false} IdleAtFirst(p: Params, events: seq<Event>)
    ensures !Busy(Run(p, events[..0])) && Run(p, events[..0]).sent == []
  {
    assert events[..0] == [];
  }

  /** Every running proof was started by some event. */
  lemma {:induction false} StartOf(p: Params, events: seq<Event>, j: nat) returns (i: nat)
    requires j <= |events| && Busy(Run(p, events[..j]))
    ensures i < j && Starts(p, Run(p, events[..i]), events[i])
    ensures forall k :: i < k < j ==> !Ends(events[k])
  {
    IdleAtFirst(p, events);
    BusyRun(p, events, j - 1);
    if Busy(Run(p, events[..j - 1])) {
      i := StartOf(p, events, j - 1);
    } else {
      i := j - 1;
    }
  }

  /** Event j sends no more than the certificate before had. */
  predicate SendsStale(p: Params, events: seq<Event>, j: nat) {
    && j < |events| && Sends(p, Run(p, events[..j]), events[j])
    && Run(p, events[..j]).sent != [] && Run(p, events[..j]).phase.quality <= LastSent(Run(p, events[..j]))
  }

  lemma {:induction false} StaleIff(p: Params, events: seq<Event>, i: nat, j: nat)
    requires Confirms(p, events, i, j) && Starts(p, Run(p, events[..i]), events[i])
    ensures SendsStale(p, events, j) <==> StartsStale(p, events, i)
  {
    BusyRun(p, events, i);
    if i + 1 < j {
      StaysBusy(p, events, i + 1, j);
    }
  }

  lemma {:induction false} IncreasingSnoc(xs: seq<nat>, x: nat)
    ensures Increasing(xs + [x]) <==> Increasing(xs) && (xs == [] || xs[|xs| - 1] < x)
  {
    var ys := xs + [x];
    assert forall i :: 0 <= i < |xs| ==> ys[i] == xs[i];
    if Increasing(ys) && xs != [] {
      assert ys[|xs| - 1] < ys[|xs|];
    }
  }

  lemma {:induction false} SentStep(p: Params, s: State, e: Event)
    ensures Increasing(Apply(p, s, e).sent) <==>
      Increasing(s.sent) && !(Sends(p, s, e) && s.sent != [] && s.phase.quality <= LastSent(s))
  {
    if Sends(p, s, e) {
      IncreasingSnoc(s.sent, s.phase.quality);
    } else {
      assert Apply(p, s, e).sent == s.sent;
    }
  }

  lemma {:induction false} SentRun(p: Params, events: seq<Event>, n: nat)
    requires n < |events|
    ensures Increasing(Run(p, events[..n + 1]).sent) <==>
      Increasing(Run(p, events[..n]).sent) && !SendsStale(p, events, n)
  {
    RunStep(p, events, n);
    SentStep(p, Run(p, events[..n]), events[n]);
  }

  lemma {:induction false} IncreasingUpTo(p: Params, events: seq<Event>, n: nat)
    requires n <= |events|
    ensures Increasing(Run(p, events[..n]).sent) <==> forall j :: 0 <= j < n ==> !SendsStale(p, events, j)
  {
    if n > 0 {
      IncreasingUpTo(p, events, n - 1);
      SentRun(p, events, n - 1);
    } else {
      IdleAtFirst(p, events);
    }
  }

  /** In every run the qualities sent increase strictly if and only if no proof that was started with no
      more signatures than the last certificate had is confirmed. */
  lemma {:induction false} IncreasingIff(p: Params, events: seq<Event>)
    ensures Increasing(Run(p, events).sent) <==>
      !exists i, j :: StartsStale(p, events, i) && Confirms(p, events, i, j)
  {
    assert events[..|events|] == events;
    IncreasingUpTo(p, events, |events|);
    if i, j :| StartsStale(p, events, i) && Confirms(p, events, i, j) {
      StaleIff(p, events, i, j);
    }
    if j :| 0 <= j < |events| && SendsStale(p, events, j) {
      var i := StartOf(p, events, j);
      StaleIff(p, events, i, j);
      assert StartsStale(p, events, i) && Confirms(p, events, i, j);
    }
  }

  /** Such a start takes an error reply, or a best quality below one that was sent. */
  lemma {:induction false} StaleStartNeedsFailure(p: Params, events: seq<Event>, i: nat)
    requires StartsStale(p, events, i)
    ensures events[i].reply == McError || Run(p, events[..i]).top < LastSent(Run(p, events[..i]))
  {
  }

  // ---------------------------------------------------------------- overtaken by another submitter

  function RunFrom(p: Params, s: State, events: seq<Event>): State {
    if events == [] then s else Apply(p, RunFrom(p, s, events[..|events| - 1]), events[|events| - 1])
  }

  /** Events that leave a running proof alone. */
  predicate WhileBuilding(events: seq<Event>) {
    forall i :: 0 <= i < |events| ==> !Ends(events[i])
  }

  /** A certificate of at least this quality came from elsewhere and was not forgotten again. */
  predicate Overtaken(events: seq<Event>, quality: nat) {
    exists i ::
      0 <= i < |events| && events[i].OtherCertificate? && events[i].quality >= quality && Lasts(events, i, quality)
  }

  predicate Lasts(events: seq<Event>, i: nat, quality: nat) {
    forall k :: i < k < |events| && events[k].Forgotten? ==> events[k].quality >= quality
  }

  lemma {:induction false} OvertakenSnoc(events: seq<Event>, e: Event, quality: nat)
    ensures Overtaken(events + [e], quality) <==>
      || (e.OtherCertificate? && e.quality >= quality)
      || (Overtaken(events, quality) && (e.Forgotten? ==> e.quality >= quality))
  {
    var all, n := events + [e], |events|;
    assert all[n] == e;
    if i :| 0 <= i < |all| && all[i].OtherCertificate? && all[i].quality >= quality && Lasts(all, i, quality) {
      if i < n {
        assert forall k :: 0 <= k < n ==> all[k] == events[k];
        assert Lasts(events, i, quality);
      }
    }
    if e.OtherCertificate? && e.quality >= quality {
      assert Lasts(all, n, quality);
    }
    if i :| 0 <= i < n && events[i].OtherCertificate? && events[i].quality >= quality && Lasts(events, i, quality) {
      assert all[i] == events[i];
      assert (e.Forgotten? ==> e.quality >= quality) ==> Lasts(all, i, quality);
    }
  }

  lemma {:induction false} TopStep(p: Params, s: State, e: Event, quality: nat)
    requires Busy(s) && !Ends(e)
    ensures Apply(p, s, e).top >= quality <==>
      || (e.OtherCertificate? && e.quality >= quality)
      || (s.top >= quality && (e.Forgotten? ==> e.quality >= quality))
  {
  }

  /** A certificate that beat every known one when its proof was started still does when the proof is
      ready, if and only if no certificate of at least its quality came from elsewhere meanwhile and
      stayed known. */
  lemma {:induction false} BeatsKnownIffNotOvertaken(p: Params, s: State, events: seq<Event>)
    requires Busy(s) && s.phase.quality > s.top && WhileBuilding(events)
    ensures Busy(RunFrom(p, s, events)) && RunFrom(p, s, events).phase.quality == s.phase.quality
    ensures s.phase.quality > RunFrom(p, s, events).top <==> !Overtaken(events, s.phase.quality)
  {
    if events != [] {
      var n := |events| - 1;
      BeatsKnownIffNotOvertaken(p, s, events[..n]);
      assert events == events[..n] + [events[n]];
      OvertakenSnoc(events[..n], events[n], s.phase.quality);
      TopStep(p, RunFrom(p, s, events[..n]), events[n], s.phase.quality);
      BusyStep(p, RunFrom(p, s, events[..n]), events[n]);
    }
  }

  // ---------------------------------------------------------------- runs

  lemma {:induction false} RunSnoc(p: Params, events: seq<Event>, e: Event)
    ensures Run(p, events + [e]) == Apply(p, Run(p, events), e)
  {
    assert (events + [e])[..|events|] == events;
  }

  const THREE := Params(3, 1)

  /** Enter the window, sign once, start the proof. */
  function FirstBuild(reply: Reply): seq<Event> {
    [] + [Enter] + [Signature(0, true, reply)] + [Timer(reply)]
  }

  lemma {:induction false} FirstBuilds(reply: Reply)
    requires reply != Unreachable
    ensures Run(THREE, FirstBuild(reply)) == State(true, [0], Building(1), 0, [], true)
  {
    RunSnoc(THREE, [], Enter);
    RunSnoc(THREE, [] + [Enter], Signature(0, true, reply));
    RunSnoc(THREE, [] + [Enter] + [Signature(0, true, reply)], Timer(reply));
  }

  /** Three keys, threshold one: signed once, overtaken by another submitter with one signature, sent
      after a second signature arrived. */
  lemma {:induction false} OvertakenIsSent()
    ensures var s := Run(THREE, FirstBuild(Answer) + [OtherCertificate(1)] + [Signature(1, true, Answer)]);
      s.phase == Building(1) && s.top == 1 && Apply(THREE, s, ProofReady(Answer, true)).sent == [1]
  {
    FirstBuilds(Answer);
    RunSnoc(THREE, FirstBuild(Answer), OtherCertificate(1));
    RunSnoc(THREE, FirstBuild(Answer) + [OtherCertificate(1)], Signature(1, true, Answer));
  }

  /** Switch the submitter off and on, and let it try again. */
  function Again(events: seq<Event>, reply: Reply, accepted: bool): seq<Event> {
    events + [Disable] + [Enable(reply)] + [Timer(reply)] + [ProofReady(reply, accepted)]
  }

  /** When the mainchain answers with errors, or answers and turns the certificate down, switching the
      submitter off and on sends the same quality twice. */
  lemma {:induction false} QualityCanRepeat(reply: Reply, accepted: bool)
    requires reply == McError || (reply == Answer && !accepted)
    ensures Run(THREE, Again(FirstBuild(reply) + [ProofReady(reply, accepted)], reply, accepted)).sent == [1, 1]
  {
    FirstBuilds(reply);
    var first := FirstBuild(reply) + [ProofReady(reply, accepted)];
    RunSnoc(THREE, FirstBuild(reply), ProofReady(reply, accepted));
    RunSnoc(THREE, first, Disable);
    RunSnoc(THREE, first + [Disable], Enable(reply));
    RunSnoc(THREE, first + [Disable] + [Enable(reply)], Timer(reply));
    RunSnoc(THREE, first + [Disable] + [Enable(reply)] + [Timer(reply)], ProofReady(reply, accepted));
  }

  /** Two signatures and a certificate, with error replies from the second one on. */
  function TwoSigned(): seq<Event> {
    [] + [Enter] + [Signature(0, true, Unreachable)] + [Signature(1, true, McError)] + [Timer(McError)]
    + [ProofReady(McError, true)]
  }

  lemma {:induction false} TwoSignedSends()
    ensures Run(THREE, TwoSigned()) == State(true, [0, 1], Idle, 2, [2], true)
  {
    var a, b := Signature(0, true, Unreachable), Signature(1, true, McError);
    RunSnoc(THREE, [], Enter);
    RunSnoc(THREE, [] + [Enter], a);
    RunSnoc(THREE, [] + [Enter] + [a], b);
    RunSnoc(THREE, [] + [Enter] + [a] + [b], Timer(McError));
    RunSnoc(THREE, [] + [Enter] + [a] + [b] + [Timer(McError)], ProofReady(McError, true));
  }

  /** With error replies, leaving the window and coming back sends a lower quality than before. */
  lemma {:induction false} QualityCanFall()
    ensures var a := Signature(0, true, McError);
      Run(THREE, TwoSigned() + [Leave] + [Enter] + [a] + [Timer(McError)] + [ProofReady(McError, true)]).sent == [2, 1]
  {
    var a, first := Signature(0, true, McError), TwoSigned();
    TwoSignedSends();
    RunSnoc(THREE, first, Leave);
    RunSnoc(THREE, first + [Leave], Enter);
    RunSnoc(THREE, first + [Leave] + [Enter], a);
    RunSnoc(THREE, first + [Leave] + [Enter] + [a], Timer(McError));
    RunSnoc(THREE, first + [Leave] + [Enter] + [a] + [Timer(McError)], ProofReady(McError, true));
  }

  // ---------------------------------------------------------------- what a certificate pays

  datatype Transfer = Transfer(receiver: nat, amount: nat)

  function TotalOf(ts: seq<Transfer>): nat {
    if ts == [] then 0 else TotalOf(ts[..|ts| - 1]) + ts[|ts| - 1].amount
  }

  /** The check every node makes when the window closes: as many transfers as requests, and pair by pair
      the same receiver and amount. */
  method MatchesRequests(transfers: seq<Transfer>, requests: seq<Transfer>) returns (ok: bool)
    ensures ok <==> transfers == requests
    ensures ok ==> TotalOf(transfers) == TotalOf(requests)
  {
    if |transfers| != |requests| {
      return false;
    }
    for i := 0 to |transfers|
      invariant transfers[..i] == requests[..i]
    {
      if transfers[i].amount != requests[i].amount || transfers[i].receiver != requests[i].receiver {
        return false;
      }
      assert transfers[i] == requests[i];
    }
    assert transfers[..|transfers|] == transfers && requests[..|requests|] == requests;
    return true;
  }
}
