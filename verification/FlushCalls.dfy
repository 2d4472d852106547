/** What each call into the file pipeline leaves behind, over every run: a request leaves a FlushTime
    no later than it asked for, a record is accepted once, `Flush` publishes what it finds, and the
    worker writes what it was asked to write. */
module FlushCalls {
  import opened FlushProtocol
  import opened FlushInvariants
  import opened FlushTheorems
  import opened Wrappers

  /** Who has a RequestFlush in progress: the thread adding a record, or a Flush caller. */
  datatype Caller = Record | FlushBy(t: Tid)

  function Pending(s: State, c: Caller): Option<Request> {
    match c
    case Record => if s.appender.ARequest? then Some(s.appender.req) else None
    case FlushBy(t) => if t in s.flushers && s.flushers[t].FRequest? then Some(s.flushers[t].req) else None
  }

  /** Some state from b to e has a FlushTime that is set, and no later than `when`. */
  ghost predicate Met(states: seq<State>, b: nat, e: nat, when: nat) {
    exists k :: b <= k <= e && k < |states| && 0 < states[k].flushTime <= when
  }

  // ---- one request ----

  ghost predicate SeenIn(states: seq<State>, b: nat, e: nat, seen: nat) {
    exists k :: b <= k <= e && k < |states| && states[k].flushTime == seen
  }

  /** What a request in progress knows: the time it has seen was there, the time it has stored was
      stored. */
  ghost predicate Asked(states: seq<State>, b: nat, e: nat, r: Request, when: nat) {
    && r.when == when
    && (r.ReqLoop? ==> SeenIn(states, b, e, r.seen))
    && (r.ReqNotify? ==> Met(states, b, e, when))
  }

  /** A request moves: it loads, looks again, stores, or is through. */
  predicate Advances(r: Request, next: Option<Request>, before: nat, after: nat) {
    || next == Some(r)
    || (match r
        case ReqLoad(when) => next == Some(ReqLoop(when, before))
        case ReqLoop(when, seen) =>
          || (next == None && 0 < seen <= when)
          || next == Some(ReqLoop(when, before))
          || (next == Some(ReqNotify(when)) && after == when && 0 < when)
        case ReqNotify(when) => next == None)
  }

  lemma AppenderAdvances(s: State, a: Action, s': State)
    requires LockInv(s) && HolderInv(s) && Next(s, a, s') && s.appender.ARequest?
    ensures Advances(s.appender.req, Pending(s', Record), s.flushTime, s'.flushTime)
    ensures s'.appender.ARequest? || s'.appender.NoAppender?
  {
    if NextAppender(s, a, s') {
      assert NextRequest(s, a, s');
    } else if NextFlusher(s, a, s') {
      FlusherFrame(s, a, s');
    } else {
      WorkerFrame(s, a, s');
    }
  }

  lemma FlusherAdvances(s: State, a: Action, s': State, t: Tid)
    requires HolderInv(s) && Next(s, a, s') && t in s.flushers && s.flushers[t].FRequest?
    ensures Advances(s.flushers[t].req, Pending(s', FlushBy(t)), s.flushTime, s'.flushTime)
    ensures t in s'.flushers && (s'.flushers[t].FRequest? || s'.flushers[t].FWait?)
  {
    if NextAppender(s, a, s') {
      AppenderFrame(s, a, s');
    } else if NextFlusher(s, a, s') {
      FlusherFrame(s, a, s');
      if a.t == t {
        assert NextWait(s, a, s');
      }
    } else {
      WorkerFrame(s, a, s');
    }
  }

  /** Step k moves the request of `c`, if it has one. */
  ghost predicate MovesRequest(states: seq<State>, k: nat, c: Caller) {
    && k + 1 < |states|
    && (Pending(states[k], c).Some? ==>
          Advances(Pending(states[k], c).value, Pending(states[k + 1], c), states[k].flushTime, states[k + 1].flushTime))
  }

  lemma RunMovesRequest(states: seq<State>, actions: seq<Action>, k: nat, c: Caller)
    requires IsRun(states, actions) && k < |actions|
    ensures MovesRequest(states, k, c)
  {
    RunKeepsInv(states, actions, k);
    if Pending(states[k], c).Some? {
      match c
      case Record => AppenderAdvances(states[k], actions[k], states[k + 1]);
      case FlushBy(t) => FlusherAdvances(states[k], actions[k], states[k + 1], t);
    }
  }

  lemma MetLater(states: seq<State>, b: nat, e: nat, later: nat, when: nat)
    requires Met(states, b, e, when) && e <= later
    ensures Met(states, b, later, when)
  {
  }

  /** One move keeps what a request knows; a request that is through has met its time. */
  lemma AskedStep(states: seq<State>, b: nat, k: nat, r: Request, next: Option<Request>, when: nat)
    requires b <= k && k + 1 < |states| && Asked(states, b, k, r, when)
    requires Advances(r, next, states[k].flushTime, states[k + 1].flushTime)
    ensures if next.Some? then Asked(states, b, k + 1, next.value, when) else Met(states, b, k + 1, when)
  {
    if r.ReqLoop? {
      var j :| b <= j <= k && j < |states| && states[j].flushTime == r.seen;
      assert b <= j <= k + 1;
    } else if r.ReqNotify? {
      MetLater(states, b, k, k + 1, when);
    }
  }

  lemma {:induction false} AskedUntil(states: seq<State>, b: nat, e: nat, c: Caller, when: nat)
    requires b <= e < |states| && Pending(states[b], c) == Some(ReqLoad(when))
    requires forall k: nat :: b <= k < e ==> MovesRequest(states, k, c) && Pending(states[k], c).Some?
    ensures if Pending(states[e], c).Some? then Asked(states, b, e, Pending(states[e], c).value, when)
            else Met(states, b, e, when)
    decreases e
  {
    if b < e {
      AskedUntil(states, b, e - 1, c, when);
      assert MovesRequest(states, e - 1, c);
      AskedStep(states, b, e - 1, Pending(states[e - 1], c).value, Pending(states[e], c), when);
    }
  }

  /** Every request, of a record or of a Flush, leaves FlushTime as early as it asked for: at some
      moment between its beginning and its end FlushTime is set and no later than that. */
  lemma RequestMeetsItsTime(states: seq<State>, actions: seq<Action>, b: nat, e: nat, c: Caller, when: nat)
    requires IsRun(states, actions) && b < e < |states| && Pending(states[b], c) == Some(ReqLoad(when))
    requires Pending(states[e], c) == None && forall k: nat :: b <= k < e ==> Pending(states[k], c).Some?
    ensures Met(states, b, e, when)
  {
    forall k: nat | b <= k < e
      ensures MovesRequest(states, k, c)
    {
      RunMovesRequest(states, actions, k, c);
    }
    AskedUntil(states, b, e, c, when);
  }

  /** No request puts FlushTime off: a step of a record or of a Flush caller leaves it, sets it, or
      makes it earlier. */
  lemma CallersOnlyAdvance(states: seq<State>, actions: seq<Action>, k: nat)
    requires IsRun(states, actions) && k < |actions|
    requires NextAppender(states[k], actions[k], states[k + 1]) || NextFlusher(states[k], actions[k], states[k + 1])
    ensures var before, after := states[k].flushTime, states[k + 1].flushTime;
      after == before || (after != 0 && (before == 0 || after < before))
  {
    RunKeepsInv(states, actions, k);
    OnlyAdvances(states[k], actions[k], states[k + 1]);
  }

  lemma OnlyAdvances(s: State, a: Action, s': State)
    requires HolderInv(s) && (NextAppender(s, a, s') || NextFlusher(s, a, s'))
    ensures s'.flushTime == s.flushTime || (s'.flushTime != 0 && (s.flushTime == 0 || s'.flushTime < s.flushTime))
  {
    if NextRegister(s, a, s') {
    } else if NextAppend(s, a, s') {
    } else if NextComplete(s, a, s') {
    } else if NextDecide(s, a, s') {
    } else if NextRequest(s, a, s') {
    } else if NextPublish(s, a, s') {
    } else if NextHandOver(s, a, s') {
    } else {
      assert NextWait(s, a, s');
    }
  }

  // ---- a Flush call ----

  /** What a Flush call knows: its request asks for RIGHT_NOW, and it waits only when that was met. */
  ghost predicate FlushKnows(states: seq<State>, b: nat, e: nat, f: Flusher) {
    match f
    case FRequest(req) => Asked(states, b, e, req, RIGHT_NOW)
    case FWait => Met(states, b, e, RIGHT_NOW)
    case FSleep(_) => false
    case FDone => false
    case _ => true
  }

  /** One step of a Flush call that has not come to its wait. */
  ghost predicate MovesFlush(states: seq<State>, k: nat, t: Tid) {
    && k + 1 < |states| && t in states[k].flushers && t in states[k + 1].flushers
    && var f, f' := states[k].flushers[t], states[k + 1].flushers[t];
       if f.FRequest? then
         (f'.FRequest? || f'.FWait?)
         && Advances(f.req, Pending(states[k + 1], FlushBy(t)), states[k].flushTime, states[k + 1].flushTime)
       else
         f' == f || f'.FPublish? || f'.FSwap? || f'.FClear? || f'.FEnqueue? || f' == FRequest(ReqLoad(RIGHT_NOW))
  }

  /** The Flush caller found nothing to publish, or no buffer to put in its place. */
  predicate Looked(s: State, a: Action, t: Tid) {
    a == FTake(t, false) || (a == FDoSwap(t) && s.queue.current.msgs == [])
  }

  /** The steps a call takes before its request; the request begins after a look at the buffer. */
  predicate MovesOn(s: State, a: Action, f: Flusher, f': Flusher, t: Tid) {
    || f' == f || f'.FPublish? || f'.FSwap? || f'.FClear? || f'.FEnqueue?
    || (f' == FRequest(ReqLoad(RIGHT_NOW)) && Looked(s, a, t))
  }

  lemma OwnFlushMoves(s: State, a: Action, s': State)
    requires NextPublish(s, a, s') || NextHandOver(s, a, s')
    ensures a.t in s'.flushers && (a.t in s.flushers ==> MovesOn(s, a, s.flushers[a.t], s'.flushers[a.t], a.t))
  {
    if NextPublish(s, a, s') {
    } else {
      assert NextHandOver(s, a, s');
    }
  }

  lemma FlushMoves(s: State, a: Action, s': State, t: Tid)
    requires Next(s, a, s') && t in s.flushers
    requires s.flushers[t].FPublish? || s.flushers[t].FSwap? || s.flushers[t].FClear? || s.flushers[t].FEnqueue?
    ensures t in s'.flushers && MovesOn(s, a, s.flushers[t], s'.flushers[t], t)
  {
    if NextAppender(s, a, s') {
      AppenderFrame(s, a, s');
    } else if NextPublish(s, a, s') || NextHandOver(s, a, s') {
      FlusherFrame(s, a, s');
      OwnFlushMoves(s, a, s');
    } else if NextWait(s, a, s') {
    } else {
      WorkerFrame(s, a, s');
    }
  }

  /** The call is on its way to its wait. */
  predicate Flushing(s: State, t: Tid) {
    t in s.flushers && !s.flushers[t].FWait? && !s.flushers[t].FSleep? && !s.flushers[t].FDone?
  }

  lemma RunMovesFlush(states: seq<State>, actions: seq<Action>, k: nat, t: Tid)
    requires IsRun(states, actions) && k < |actions| && Flushing(states[k], t)
    ensures MovesFlush(states, k, t)
  {
    RunKeepsInv(states, actions, k);
    if states[k].flushers[t].FRequest? {
      FlusherAdvances(states[k], actions[k], states[k + 1], t);
    } else {
      FlushMoves(states[k], actions[k], states[k + 1], t);
    }
  }

  lemma {:induction false} FlushKnowsUntil(states: seq<State>, b: nat, e: nat, t: Tid)
    requires b <= e < |states| && t in states[b].flushers && states[b].flushers[t].FPublish?
    requires forall k: nat :: b <= k < e ==> MovesFlush(states, k, t) && Flushing(states[k], t)
    ensures t in states[e].flushers && FlushKnows(states, b, e, states[e].flushers[t])
    decreases e
  {
    if b < e {
      FlushKnowsUntil(states, b, e - 1, t);
      assert MovesFlush(states, e - 1, t);
      var f := states[e - 1].flushers[t];
      if f.FRequest? {
        AskedStep(states, b, e - 1, f.req, Pending(states[e], FlushBy(t)), RIGHT_NOW);
      }
    }
  }

  /** A Flush comes to its wait only after FlushTime was RIGHT_NOW during the call. */
  lemma FlushAsksForNow(states: seq<State>, actions: seq<Action>, b: nat, e: nat, t: Tid) returns (k: nat)
    requires IsRun(states, actions) && b < e < |states| && t in states[b].flushers && states[b].flushers[t].FPublish?
    requires forall j: nat :: b <= j < e ==> Flushing(states[j], t)
    requires t in states[e].flushers && states[e].flushers[t].FWait?
    ensures b <= k <= e && states[k].flushTime == RIGHT_NOW
  {
    forall j: nat | b <= j < e
      ensures MovesFlush(states, j, t)
    {
      RunMovesFlush(states, actions, j, t);
    }
    FlushKnowsUntil(states, b, e, t);
    k :| b <= k <= e && k < |states| && 0 < states[k].flushTime <= RIGHT_NOW;
  }

  ghost predicate PublishesOn(states: seq<State>, actions: seq<Action>, k: nat, t: Tid) {
    && k < |actions| && MovesFlush(states, k, t)
    && (states[k + 1].flushers[t].FRequest? && !states[k].flushers[t].FRequest? ==> Looked(states[k], actions[k], t))
  }

  lemma RunPublishesOn(states: seq<State>, actions: seq<Action>, k: nat, t: Tid)
    requires IsRun(states, actions) && k < |actions| && Flushing(states[k], t)
    ensures PublishesOn(states, actions, k, t)
  {
    RunMovesFlush(states, actions, k, t);
    if states[k + 1].flushers[t].FRequest? && !states[k].flushers[t].FRequest? {
      FlushMoves(states[k], actions[k], states[k + 1], t);
    }
  }

  lemma {:induction false} LookedSome(states: seq<State>, actions: seq<Action>, b: nat, e: nat, t: Tid) returns (k: nat)
    requires b < e < |states| && |states| == |actions| + 1 && t in states[b].flushers && states[b].flushers[t].FPublish?
    requires forall j: nat :: b <= j < e ==> PublishesOn(states, actions, j, t) && Flushing(states[j], t)
    requires t in states[e].flushers && (states[e].flushers[t].FRequest? || states[e].flushers[t].FWait?)
    ensures b <= k < e && Looked(states[k], actions[k], t)
    decreases e
  {
    assert PublishesOn(states, actions, e - 1, t);
    if states[e - 1].flushers[t].FRequest? {
      k := LookedSome(states, actions, b, e - 1, t);
    } else {
      k := e - 1;
    }
  }

  /** A Flush goes on publishing until it has looked and found the current buffer empty, or has been
      given no replacement. */
  lemma FlushPublishesFirst(states: seq<State>, actions: seq<Action>, b: nat, e: nat, t: Tid) returns (k: nat)
    requires IsRun(states, actions) && b < e < |states| && t in states[b].flushers && states[b].flushers[t].FPublish?
    requires forall j: nat :: b <= j < e ==> Flushing(states[j], t)
    requires t in states[e].flushers && states[e].flushers[t].FWait?
    ensures b <= k < e && Looked(states[k], actions[k], t)
  {
    forall j: nat | b <= j < e
      ensures PublishesOn(states, actions, j, t)
    {
      RunPublishesOn(states, actions, j, t);
    }
    k := LookedSome(states, actions, b, e, t);
  }

  // ---- a record ----

  /** What a record knows once it has decided: it asks for `when`, or that is met. */
  ghost predicate RecordKnows(states: seq<State>, b: nat, e: nat, a: Appender, when: nat) {
    match a
    case AMirror(w) => w == when || (w == 0 && Met(states, b, e, when))
    case ARequest(req) => Asked(states, b, e, req, when)
    case NoAppender => Met(states, b, e, when)
    case _ => false
  }

  ghost predicate MovesRecord(states: seq<State>, k: nat) {
    && k + 1 < |states|
    && var a, a' := states[k].appender, states[k + 1].appender;
       match a
       case AMirror(w) => a' == a || a' == if w != 0 then ARequest(ReqLoad(w)) else NoAppender
       case ARequest(req) =>
         (a'.ARequest? || a'.NoAppender?)
         && Advances(req, Pending(states[k + 1], Record), states[k].flushTime, states[k + 1].flushTime)
       case _ => true
  }

  lemma MirrorMoves(s: State, a: Action, s': State)
    requires LockInv(s) && Next(s, a, s') && s.appender.AMirror?
    ensures s'.appender == s.appender
            || s'.appender == if s.appender.when != 0 then ARequest(ReqLoad(s.appender.when)) else NoAppender
  {
    if NextAppender(s, a, s') {
      assert NextDecide(s, a, s');
    } else if NextFlusher(s, a, s') {
      FlusherFrame(s, a, s');
    } else {
      WorkerFrame(s, a, s');
    }
  }

  lemma RunMovesRecord(states: seq<State>, actions: seq<Action>, k: nat)
    requires IsRun(states, actions) && k < |actions|
    ensures MovesRecord(states, k)
  {
    RunKeepsInv(states, actions, k);
    if states[k].appender.AMirror? {
      MirrorMoves(states[k], actions[k], states[k + 1]);
    } else if states[k].appender.ARequest? {
      AppenderAdvances(states[k], actions[k], states[k + 1]);
    }
  }

  lemma RecordStep(states: seq<State>, b: nat, k: nat, next: nat, when: nat)
    requires b <= k && next == k + 1 && MovesRecord(states, k)
    requires RecordKnows(states, b, k, states[k].appender, when) && when != 0 && states[k].appender != NoAppender
    ensures RecordKnows(states, b, next, states[next].appender, when)
  {
    var a := states[k].appender;
    match a
    case AMirror(w) =>
      if w != when {
        MetLater(states, b, k, next, when);
      }
    case ARequest(req) =>
      AskedStep(states, b, k, req, Pending(states[next], Record), when);
    case _ =>
  }

  lemma {:induction false} RecordKnowsUntil(states: seq<State>, b: nat, first: nat, e: nat, when: nat)
    requires b <= first <= e < |states| && RecordKnows(states, b, first, states[first].appender, when) && when != 0
    requires forall k: nat :: first <= k < e ==> MovesRecord(states, k) && states[k].appender != NoAppender
    ensures RecordKnows(states, b, e, states[e].appender, when)
    decreases e
  {
    if first < e {
      var k := e - 1;
      RecordKnowsUntil(states, b, first, k, when);
      assert MovesRecord(states, k);
      RecordStep(states, b, k, e, when);
    }
  }

  /** The time a record's decision asks for: now under pressure, and a delay from the first bytes of a
      buffer while nothing is asked for. */
  predicate Decides(s: State, a: Action, when: nat) {
    && a.AChoose? && s.appender.ADecide?
    && if a.pressure then when == RIGHT_NOW
       else s.appender.firstData && s.flushTime == 0 && when == a.now + s.config.flushAfter
  }

  lemma DecisionKnown(states: seq<State>, b: nat, a: Action, when: nat)
    requires b + 1 < |states| && Next(states[b], a, states[b + 1]) && Decides(states[b], a, when)
    ensures RecordKnows(states, b, b + 1, states[b + 1].appender, when) && when != 0
  {
    assert NextDecide(states[b], a, states[b + 1]);
    if a.pressure && states[b].flushTime == RIGHT_NOW {
      assert Met(states, b, b + 1, when);
    }
  }

  /** A record that finds pressure, or puts the first bytes into a buffer while no flush is asked for,
      ends only after FlushTime was as early as that asks. */
  lemma RecordAsksInTime(states: seq<State>, actions: seq<Action>, b: nat, e: nat, when: nat)
    requires IsRun(states, actions) && b < e < |states| && Decides(states[b], actions[b], when)
    requires states[e].appender == NoAppender && forall k: nat :: b < k < e ==> states[k].appender != NoAppender
    ensures Met(states, b, e, when)
  {
    DecisionKnown(states, b, actions[b], when);
    forall k: nat | b < k < e
      ensures MovesRecord(states, k)
    {
      RunMovesRecord(states, actions, k);
    }
    RecordKnowsUntil(states, b, b + 1, e, when);
  }

  predicate Wants(a: Appender, when: nat) {
    match a
    case AMirror(w) => w == 0 || w == when
    case ARequest(req) => req.when == when
    case NoAppender => true
    case _ => false
  }

  /** The time a record asks for, if it asks at all. */
  function AskedTime(s: State, a: Action): nat
    requires a.AChoose?
  {
    if a.pressure then RIGHT_NOW else a.now + s.config.flushAfter
  }

  lemma {:induction false} WantsUntil(states: seq<State>, first: nat, e: nat, when: nat)
    requires first <= e < |states| && Wants(states[first].appender, when)
    requires forall k: nat :: first <= k < e ==> MovesRecord(states, k) && states[k].appender != NoAppender
    ensures Wants(states[e].appender, when)
    decreases e
  {
    if first < e {
      WantsUntil(states, first, e - 1, when);
      assert MovesRecord(states, e - 1);
    }
  }

  /** A record without pressure does not cut the delay short: what its request stores is the time of its
      decision and the delay, and RIGHT_NOW only under pressure. */
  lemma RecordStoresItsTime(states: seq<State>, actions: seq<Action>, b: nat, k: nat)
    requires IsRun(states, actions) && b < k < |actions| && actions[b].AChoose? && actions[k].ARequestStep?
    requires forall j: nat :: b < j <= k ==> states[j].appender != NoAppender
    ensures states[k + 1].flushTime == states[k].flushTime
            || states[k + 1].flushTime == AskedTime(states[b], actions[b])
  {
    assert NextDecide(states[b], actions[b], states[b + 1]);
    forall j: nat | b < j < k
      ensures MovesRecord(states, j)
    {
      RunMovesRecord(states, actions, j);
    }
    WantsUntil(states, b + 1, k, AskedTime(states[b], actions[b]));
    assert NextRequest(states[k], actions[k], states[k + 1]);
  }

  /** The record found no room: the current buffer is full and cannot be replaced, or no buffer would do. */
  predicate Refuses(s: State, a: Action, m: Msg) {
    && a.AAppend? && SumMsgs(s.queue.current.msgs) + m.size > s.config.capacity
    && (!a.replaced || m.size > s.config.capacity)
  }

  /** How far a record is: not yet counted, or counted. */
  predicate Counted(a: Appender) {
    a.ADecide? || a.AMirror? || a.ARequest?
  }

  predicate Carrying(a: Appender, m: Msg) {
    (a.ALoad? || a.AQueue? || a.AFlag? || a.ASwapFlag? || a.AEnqueue? || a.ACount?) && a.m == m
  }

  ghost predicate CountsRecord(s: State, a: Action, s': State, m: Msg) {
    if Counted(s.appender) then (Counted(s'.appender) || s'.appender.NoAppender?) && s'.accepted == s.accepted
    else if Carrying(s.appender, m) then
      || (Carrying(s'.appender, m) && s'.accepted == s.accepted)
      || (Counted(s'.appender) && s'.accepted == s.accepted + [m])
      || (s'.appender.NoAppender? && s'.accepted == s.accepted && Refuses(s, a, m))
    else true
  }

  lemma OwnStepCounts(s: State, a: Action, s': State, m: Msg)
    requires LockInv(s) && NextAppender(s, a, s')
    ensures CountsRecord(s, a, s', m)
  {
    if NextRegister(s, a, s') {
    } else if NextAppend(s, a, s') {
    } else if NextComplete(s, a, s') {
    } else if NextDecide(s, a, s') {
    } else {
      assert NextRequest(s, a, s');
    }
  }

  lemma RecordCounts(s: State, a: Action, s': State, m: Msg)
    requires LockInv(s) && Next(s, a, s')
    ensures CountsRecord(s, a, s', m)
  {
    if NextAppender(s, a, s') {
      OwnStepCounts(s, a, s', m);
    } else if NextFlusher(s, a, s') {
      FlusherFrame(s, a, s');
    } else {
      WorkerFrame(s, a, s');
    }
  }

  /** How a record that began with `before` accepted stands: on its way, counted, or refused. */
  ghost predicate Stands(states: seq<State>, actions: seq<Action>, b: nat, e: nat, m: Msg) {
    && b <= e < |states| && |states| == |actions| + 1
    && var before, s := states[b].accepted, states[e];
       || (Carrying(s.appender, m) && s.accepted == before)
       || ((Counted(s.appender) || s.appender.NoAppender?) && s.accepted == before + [m])
       || (s.appender.NoAppender? && s.accepted == before
           && exists k :: b <= k < e && Refuses(states[k], actions[k], m))
  }

  lemma {:induction false} StandsUntil(states: seq<State>, actions: seq<Action>, b: nat, e: nat, m: Msg)
    requires b <= e < |states| && |states| == |actions| + 1 && states[b].appender == ALoad(m)
    requires forall k: nat :: b <= k < e ==> CountsRecord(states[k], actions[k], states[k + 1], m)
    requires forall k: nat :: b <= k < e ==> states[k].appender != NoAppender
    ensures Stands(states, actions, b, e, m)
    decreases e
  {
    if b < e {
      StandsUntil(states, actions, b, e - 1, m);
      assert CountsRecord(states[e - 1], actions[e - 1], states[e], m);
    }
  }

  /** A record is accepted once, or not at all; and that only when the current buffer had no room for
      it and could not be replaced, or no buffer is large enough. */
  lemma RecordIsAcceptedOnce(states: seq<State>, actions: seq<Action>, b: nat, e: nat, m: Msg)
    requires IsRun(states, actions) && b < e < |states| && states[b].appender == ALoad(m)
    requires states[e].appender == NoAppender && forall k: nat :: b <= k < e ==> states[k].appender != NoAppender
    ensures states[e].accepted == states[b].accepted + [m]
            || (states[e].accepted == states[b].accepted && exists k :: b <= k < e && Refuses(states[k], actions[k], m))
  {
    forall k: nat | b <= k < e
      ensures CountsRecord(states[k], actions[k], states[k + 1], m)
    {
      RunKeepsInv(states, actions, k);
      RecordCounts(states[k], actions[k], states[k + 1], m);
    }
    StandsUntil(states, actions, b, e, m);
  }

  // ---- a run of the worker ----

  /** A forced run on its way to a batch: nothing taken yet, or a batch in hand or waiting for it. */
  predicate Heading(s: State) {
    match s.worker
    case WTake(i, force) => (force && i == 0) || s.queue.ready != []
    case WEmpty(i, force) => force && i == 0
    case WEmptyNotify(i, force) => force && i == 0
    case WPublish(i) => i == 0
    case WSwap(i) => i == 0
    case WClear(i, _) => i == 0
    case WEnqueue(i, _) => i == 0
    case WWrite(_, _) => true
    case _ => false
  }

  /** A batch is written, the current buffer was found empty, or there was no buffer to replace it. */
  predicate Settles(s: State, a: Action) {
    a.WDoWrite? || a == WGetBuffer(false) || (a.WDoSwap? && s.queue.current.msgs == [])
  }

  lemma AppenderLeavesWorker(s: State, a: Action, s': State)
    requires NextAppender(s, a, s')
    ensures s'.worker == s.worker && (s.queue.ready != [] ==> s'.queue.ready != [])
  {
    if NextRegister(s, a, s') {
    } else if NextAppend(s, a, s') {
    } else if NextComplete(s, a, s') {
    } else if NextDecide(s, a, s') {
    } else {
      assert NextRequest(s, a, s');
    }
  }

  lemma FlusherLeavesWorker(s: State, a: Action, s': State)
    requires NextFlusher(s, a, s')
    ensures s'.worker == s.worker && (s.queue.ready != [] ==> s'.queue.ready != [])
  {
    if NextPublish(s, a, s') {
    } else if NextHandOver(s, a, s') {
    } else {
      assert NextWait(s, a, s');
    }
  }

  lemma CallersLeaveWorker(s: State, a: Action, s': State)
    requires NextAppender(s, a, s') || NextFlusher(s, a, s')
    ensures s'.worker == s.worker && (s.queue.ready != [] ==> s'.queue.ready != [])
  {
    if NextAppender(s, a, s') {
      AppenderLeavesWorker(s, a, s');
    } else {
      FlusherLeavesWorker(s, a, s');
    }
  }

  /** While the worker runs, a manager step only takes note of other backends. */
  lemma ManagerAtWork(s: State, a: Action, s': State)
    requires NextManager(s, a, s') && Running(s.worker) && !s.worker.MBack?
    ensures s' == s.(manager := s'.manager)
  {
  }

  lemma ForcedSteps(s: State, a: Action, s': State)
    requires NextForced(s, a, s')
    ensures s.worker.WPublish? || s.worker.WSwap? || s.worker.WClear? || s.worker.WEnqueue?
  {
  }

  lemma WriterSteps(s: State, a: Action, s': State)
    requires NextWriter(s, a, s')
    ensures !Updating(s.worker)
    ensures Notifying(s.worker) ==> s'.epoch == s.epoch + 1
    ensures !s'.worker.UTime? && !s'.worker.UTimeAgain? && !s'.worker.UStore?
  {
  }

  predicate Notifying(w: Worker) {
    w.WEmptyNotify? || w.WNotify?
  }

  /** The steps of UpdateFlushTimeAfterWork are taken at its own points. */
  predicate Updating(w: Worker) {
    w.UReady? || w.UTime? || w.UFlag? || w.ULoad? || w.UClear? || w.UReadyAgain? || w.UTimeAgain? || w.UHasReady?
    || w.UFlagAgain? || w.UStore? || w.UStoreNow? || w.UStoreLater?
  }

  lemma UpdateSteps(s: State, a: Action, s': State)
    requires NextLook(s, a, s') || NextRecheck(s, a, s')
    ensures Updating(s.worker)
  {
    if NextLook(s, a, s') {
    } else {
      assert NextRecheck(s, a, s');
    }
  }

  lemma HeadingStep(s: State, a: Action, s': State)
    requires Next(s, a, s') && Heading(s)
    ensures Heading(s') || Settles(s, a)
  {
    if NextAppender(s, a, s') || NextFlusher(s, a, s') {
      CallersLeaveWorker(s, a, s');
    } else if NextManager(s, a, s') {
    } else if NextWriter(s, a, s') {
    } else if NextForced(s, a, s') {
    } else {
      UpdateSteps(s, a, s');
    }
  }

  ghost predicate HeadsOn(states: seq<State>, actions: seq<Action>, k: nat) {
    && k < |actions| && k + 1 < |states|
    && (Heading(states[k]) ==> Heading(states[k + 1]) || Settles(states[k], actions[k]))
  }

  lemma {:induction false} SettledSome(states: seq<State>, actions: seq<Action>, b: nat, e: nat) returns (k: nat)
    requires b < e < |states| && |states| == |actions| + 1 && Heading(states[b]) && !Heading(states[e])
    requires forall j: nat :: b <= j < e ==> HeadsOn(states, actions, j)
    ensures b <= k < e && Settles(states[k], actions[k])
    decreases e
  {
    assert HeadsOn(states, actions, e - 1);
    if Heading(states[e - 1]) {
      k := e - 1;
    } else {
      k := SettledSome(states, actions, b, e - 1);
    }
  }

  /** A run of the worker that begins with RIGHT_NOW writes a batch before it looks at FlushTime again,
      unless it finds the current buffer empty or is given no replacement for it. */
  lemma ImmediateRunWrites(states: seq<State>, actions: seq<Action>, b: nat, e: nat) returns (k: nat)
    requires IsRun(states, actions) && b + 1 < e < |states| && states[e].worker.UReady?
    requires actions[b].WBegin? && (states[b].flushTime == RIGHT_NOW || actions[b].shutdown)
    ensures b < k < e && Settles(states[k], actions[k])
  {
    assert NextWriter(states[b], actions[b], states[b + 1]);
    forall j: nat | b < j < e
      ensures HeadsOn(states, actions, j)
    {
      if Heading(states[j]) {
        HeadingStep(states[j], actions[j], states[j + 1]);
      }
    }
    k := SettledSome(states, actions, b + 1, e);
  }

  // ---- the time the worker leaves ----

  /** The worker has seen data from `first`, or older. */
  predicate Carries(w: Worker, first: nat) {
    match w
    case UTime(ready) => 0 < ready <= first
    case UTimeAgain(ready) => 0 < ready <= first
    case UStore(oldest) => 0 < oldest <= first
    case _ => false
  }

  predicate InTime(s: State, first: nat) {
    s.worker.MBack? && 0 < s.flushTime <= first + s.config.flushAfter
  }

  lemma CarriesStep(s: State, a: Action, s': State, first: nat)
    requires Next(s, a, s') && Carries(s.worker, first)
    ensures Carries(s'.worker, first) || InTime(s', first)
  {
    if NextAppender(s, a, s') || NextFlusher(s, a, s') {
      CallersLeaveWorker(s, a, s');
    } else if NextManager(s, a, s') {
      ManagerAtWork(s, a, s');
    } else if NextWriter(s, a, s') {
      WriterSteps(s, a, s');
    } else if NextForced(s, a, s') {
      ForcedSteps(s, a, s');
    } else {
      assert NextLook(s, a, s') || NextRecheck(s, a, s');
    }
  }

  ghost predicate CarriesOn(states: seq<State>, k: nat, first: nat) {
    && k + 1 < |states|
    && (Carries(states[k].worker, first) ==> Carries(states[k + 1].worker, first) || InTime(states[k + 1], first))
  }

  lemma {:induction false} InTimeAtLast(states: seq<State>, b: nat, e: nat, first: nat)
    requires b <= e < |states| && Carries(states[b].worker, first)
    requires forall k: nat :: b <= k < e ==> CarriesOn(states, k, first) && !states[k].worker.MBack?
    ensures Carries(states[e].worker, first) || InTime(states[e], first)
    decreases e
  {
    if b < e {
      InTimeAtLast(states, b, e - 1, first);
      assert CarriesOn(states, e - 1, first);
    }
  }

  /** What the worker looks at: the oldest buffer of the ready list, or the mirror of the current one. */
  predicate LooksAt(s: State, a: Action, first: nat) {
    && first != 0
    && (((a.USeeReady? || a.USeeReadyAgain?) && s.queue.ready != [] && s.queue.ready[0].first == first)
        || ((a.USeeTime? || a.USeeTimeAgain?) && s.queue.timeMirror == first))
  }

  /** When the worker has seen bytes first written at `first`, the FlushTime it leaves is set and at
      most the delay later than that. */
  lemma WorkerKeepsDeadline(states: seq<State>, actions: seq<Action>, b: nat, e: nat, first: nat)
    requires IsRun(states, actions) && b < e < |states| && LooksAt(states[b], actions[b], first)
    requires states[e].worker.MBack? && forall k: nat :: b <= k < e ==> !states[k].worker.MBack?
    ensures 0 < states[e].flushTime <= first + states[e].config.flushAfter
  {
    assert NextLook(states[b], actions[b], states[b + 1]) || NextRecheck(states[b], actions[b], states[b + 1]);
    assert Carries(states[b + 1].worker, first);
    forall k: nat | b < k < e
      ensures CarriesOn(states, k, first)
    {
      if Carries(states[k].worker, first) {
        CarriesStep(states[k], actions[k], states[k + 1], first);
      }
    }
    InTimeAtLast(states, b + 1, e, first);
  }

  /** The worker has seen nothing older than `low`. */
  predicate NoneOlder(w: Worker, low: nat) {
    match w
    case UTime(ready) => ready == 0 || low <= ready
    case UTimeAgain(ready) => ready == 0 || low <= ready
    case UStore(oldest) => low <= oldest
    case _ => true
  }

  lemma NoneOlderAtLook(s: State, a: Action, s': State, low: nat)
    requires (NextLook(s, a, s') || NextRecheck(s, a, s')) && NoneOlder(s.worker, low)
    requires forall first: nat :: LooksAt(s, a, first) ==> low <= first
    ensures NoneOlder(s'.worker, low)
  {
    assert s.queue.ready != [] && s.queue.ready[0].first != 0 && (a.USeeReady? || a.USeeReadyAgain?)
           ==> LooksAt(s, a, s.queue.ready[0].first);
    assert s.queue.timeMirror != 0 && (a.USeeTime? || a.USeeTimeAgain?) ==> LooksAt(s, a, s.queue.timeMirror);
    if NextLook(s, a, s') {
    } else {
      assert NextRecheck(s, a, s');
    }
  }

  lemma NoneOlderElsewhere(s: State, a: Action, s': State, low: nat)
    requires NoneOlder(s.worker, low) && (NextManager(s, a, s') || NextWriter(s, a, s') || NextForced(s, a, s'))
    ensures NoneOlder(s'.worker, low)
  {
    if NextManager(s, a, s') {
    } else if NextWriter(s, a, s') {
      WriterSteps(s, a, s');
    } else {
      assert NextForced(s, a, s');
    }
  }

  lemma NoneOlderStep(s: State, a: Action, s': State, low: nat)
    requires Next(s, a, s') && NoneOlder(s.worker, low) && forall first: nat :: LooksAt(s, a, first) ==> low <= first
    ensures NoneOlder(s'.worker, low)
  {
    if NextAppender(s, a, s') || NextFlusher(s, a, s') {
      CallersLeaveWorker(s, a, s');
    } else if NextLook(s, a, s') || NextRecheck(s, a, s') {
      NoneOlderAtLook(s, a, s', low);
    } else {
      NoneOlderElsewhere(s, a, s', low);
    }
  }

  ghost predicate NoneOlderOn(states: seq<State>, k: nat, low: nat) {
    k + 1 < |states| && (NoneOlder(states[k].worker, low) ==> NoneOlder(states[k + 1].worker, low))
  }

  lemma {:induction false} NoneOlderUntil(states: seq<State>, b: nat, e: nat, low: nat)
    requires b <= e < |states| && NoneOlder(states[b].worker, low)
    requires forall k: nat :: b <= k < e ==> NoneOlderOn(states, k, low)
    ensures NoneOlder(states[e].worker, low)
    decreases e
  {
    if b < e {
      NoneOlderUntil(states, b, e - 1, low);
      assert NoneOlderOn(states, e - 1, low);
    }
  }

  /** The worker does not cut the delay short: when all it has seen is from `low` on and not due, the
      time it stores for it is not before `low` and the delay. */
  lemma WorkerWaitsForDelay(states: seq<State>, actions: seq<Action>, b: nat, e: nat, low: nat, now: nat)
    requires IsRun(states, actions) && b < e < |actions| && actions[b].USeeReady?
    requires actions[e] == UWrite(now) && states[e].worker.UStore? && now < low + states[e].config.flushAfter
    requires forall k: nat, first: nat :: b <= k < e && LooksAt(states[k], actions[k], first) ==> low <= first
    ensures states[e + 1].flushTime >= low + states[e].config.flushAfter
  {
    assert NextLook(states[b], actions[b], states[b + 1]);
    forall k: nat | b <= k < e
      ensures NoneOlderOn(states, k, low)
    {
      if NoneOlder(states[k].worker, low) {
        NoneOlderStep(states[k], actions[k], states[k + 1], low);
      }
    }
    NoneOlderUntil(states, b, e, low);
    assert NextRecheck(states[e], actions[e], states[e + 1]);
  }

  /** A record that finds a deadline joins it: the first-write time it would give a buffer leads the
      worker to the same deadline again. */
  lemma RecordJoinsDeadline(states: seq<State>, actions: seq<Action>, k: nat)
    requires IsRun(states, actions) && k < |actions| && actions[k].AFirstLoad?
    requires states[k].flushTime > states[k].config.flushAfter && states[k].flushTime != RIGHT_NOW
    ensures states[k + 1].appender.AQueue?
    ensures states[k + 1].appender.first + states[k].config.flushAfter == states[k].flushTime
  {
    assert NextAppend(states[k], actions[k], states[k + 1]);
  }

  lemma FlaggedStep(s: State, a: Action, s': State)
    requires Next(s, a, s') && s.worker.UStoreLater?
    ensures s'.worker.UStoreLater?
            || (s'.worker.MBack? && a.UWrite? && s'.flushTime == a.now + s.config.flushAfter)
  {
    if NextAppender(s, a, s') || NextFlusher(s, a, s') {
      CallersLeaveWorker(s, a, s');
    } else if NextManager(s, a, s') {
      ManagerAtWork(s, a, s');
    } else if NextWriter(s, a, s') {
      WriterSteps(s, a, s');
    } else if NextForced(s, a, s') {
      ForcedSteps(s, a, s');
    } else {
      assert NextLook(s, a, s') || NextRecheck(s, a, s');
    }
  }

  ghost predicate FlaggedOn(states: seq<State>, k: nat) {
    k + 1 < |states| && (states[k].worker.UStoreLater? ==> states[k + 1].worker.UStoreLater? || states[k + 1].worker.MBack?)
  }

  lemma {:induction false} FlaggedUntil(states: seq<State>, b: nat, e: nat)
    requires b <= e < |states| && states[b].worker.UStoreLater?
    requires forall k: nat :: b <= k < e ==> FlaggedOn(states, k)
    requires forall k: nat :: b <= k <= e ==> !states[k].worker.MBack?
    ensures states[e].worker.UStoreLater?
    decreases e
  {
    if b < e {
      FlaggedUntil(states, b, e - 1);
      assert FlaggedOn(states, e - 1);
    }
  }

  /** Bytes just being put into an empty buffer, seen only by the flag, get the whole delay. */
  lemma FlaggedDataGetsDelay(states: seq<State>, actions: seq<Action>, b: nat, e: nat)
    requires IsRun(states, actions) && b + 1 < e < |states| && actions[b].USeeFlagAgain? && states[b].queue.flagMirror
    requires states[e].worker.MBack? && forall k: nat :: b < k < e ==> !states[k].worker.MBack?
    ensures actions[e - 1].UWrite? && states[e].flushTime == actions[e - 1].now + states[e - 1].config.flushAfter
  {
    RunFlagSeen(states, actions, b);
    forall k: nat | b < k < e
      ensures FlaggedOn(states, k)
    {
      RunFlaggedOn(states, actions, k);
    }
    FlaggedUntil(states, b + 1, e - 1);
    RunFlaggedEnds(states, actions, e - 1);
  }

  lemma RunFlaggedEnds(states: seq<State>, actions: seq<Action>, k: nat)
    requires IsRun(states, actions) && k < |actions| && states[k].worker.UStoreLater? && states[k + 1].worker.MBack?
    ensures actions[k].UWrite? && states[k + 1].flushTime == actions[k].now + states[k].config.flushAfter
  {
    FlaggedStep(states[k], actions[k], states[k + 1]);
  }

  lemma RunFlagSeen(states: seq<State>, actions: seq<Action>, k: nat)
    requires IsRun(states, actions) && k < |actions| && actions[k].USeeFlagAgain? && states[k].queue.flagMirror
    ensures states[k + 1].worker.UStoreLater?
  {
    assert NextRecheck(states[k], actions[k], states[k + 1]);
  }

  lemma RunFlaggedOn(states: seq<State>, actions: seq<Action>, k: nat)
    requires IsRun(states, actions) && k < |actions|
    ensures FlaggedOn(states, k)
  {
    if states[k].worker.UStoreLater? {
      FlaggedStep(states[k], actions[k], states[k + 1]);
    }
  }

  // ---- waking the Flush callers ----

  lemma NotifyingStep(s: State, a: Action, s': State)
    requires Next(s, a, s') && Notifying(s.worker)
    ensures (s'.worker == s.worker && s'.epoch == s.epoch) || s'.epoch == s.epoch + 1
  {
    if NextAppender(s, a, s') {
      AppenderFrame(s, a, s');
    } else if NextFlusher(s, a, s') {
      FlusherFrame(s, a, s');
    } else if NextManager(s, a, s') {
      ManagerAtWork(s, a, s');
    } else if NextWriter(s, a, s') {
      WriterSteps(s, a, s');
    } else if NextForced(s, a, s') {
      ForcedSteps(s, a, s');
    } else {
      UpdateSteps(s, a, s');
    }
  }

  /** The worker is still to notify, or has. */
  ghost predicate NotifiesOn(states: seq<State>, k: nat) {
    && k + 1 < |states|
    && (Notifying(states[k].worker) ==>
          (states[k + 1].worker == states[k].worker && states[k + 1].epoch == states[k].epoch)
          || states[k + 1].epoch == states[k].epoch + 1)
  }

  lemma NotifiedAtLast(states: seq<State>, b: nat, e: nat)
    requires b < e < |states| && Notifying(states[b].worker) && !Notifying(states[e].worker)
    requires forall k: nat :: b <= k < e ==> NotifiesOn(states, k) && Notifying(states[k].worker)
    ensures states[e].epoch > states[b].epoch
  {
    assert NotifiesOn(states, e - 1);
    SameEpoch(states, b, e - 1);
  }

  lemma {:induction false} SameEpoch(states: seq<State>, b: nat, e: nat)
    requires b <= e < |states| && forall k: nat :: b <= k < e ==> NotifiesOn(states, k) && Notifying(states[k].worker)
    ensures states[e].epoch >= states[b].epoch
    decreases e
  {
    if b < e {
      SameEpoch(states, b, e - 1);
      assert NotifiesOn(states, e - 1);
    }
  }

  /** Whenever the worker finds nothing queued, after a batch or in place of one, it notifies all Flush
      callers before it goes on. */
  lemma NothingQueuedNotifies(states: seq<State>, actions: seq<Action>, b: nat, e: nat)
    requires IsRun(states, actions) && b + 1 < e < |states| && states[b].queued == 0
    requires actions[b].WEmptyTest? || actions[b].WTest?
    requires forall k: nat :: b < k < e ==> states[k].worker == states[b + 1].worker
    requires states[e].worker != states[b + 1].worker
    requires !Notifying(states[e].worker)
    ensures states[e].epoch > states[b].epoch
  {
    assert NextWriter(states[b], actions[b], states[b + 1]);
    forall k: nat | b < k < e
      ensures NotifiesOn(states, k)
    {
      NotifyingStep(states[k], actions[k], states[k + 1]);
    }
    NotifiedAtLast(states, b + 1, e);
  }
}
