/** Safety of the file pipeline over every run: no append is lost, a returning `Flush` means what it
    promises, no bytes are forgotten, and exactly when the management thread is told about them. */
module FlushTheorems {
  import opened FlushProtocol
  import opened FlushInvariants
  import opened FlushLedger

  ghost predicate Inv(s: State) {
    && LockInv(s) && MirrorInv(s) && HolderInv(s) && WakeInv(s) && RegisterInv(s) && LinkInv(s) && SleepInv(s)
    && LedgerInv(LedgerOf(s))
  }

  lemma InvInit(s: State)
    requires Init(s)
    ensures Inv(s)
  {
  }

  lemma InvKept(s: State, a: Action, s': State)
    requires Inv(s) && Next(s, a, s')
    ensures Inv(s')
  {
    DataKept(s, a, s');
    HolderKept(s, a, s');
    WakeKept(s, a, s');
    RegisterKept(s, a, s');
    LinkKept(s, a, s');
    QueuedNeverUnderflows(LedgerOf(s));
    SleepKept(s, a, s');
    var v := StepRefinesLedger(s, a, s');
    LedgerInvKept(LedgerOf(s), v, LedgerOf(s'));
  }

  lemma {:induction false} RunKeepsInv(states: seq<State>, actions: seq<Action>, n: nat)
    requires IsRun(states, actions) && n < |states|
    ensures Inv(states[n])
  {
    if n == 0 {
      InvInit(states[0]);
    } else {
      RunKeepsInv(states, actions, n - 1);
      InvKept(states[n - 1], actions[n - 1], states[n]);
    }
  }

  /** No bytes are forgotten: in every state of every run, as long as some wait to be written,
      FlushTime is not 0 or a thread in the middle of its call still has to set it. */
  lemma NoLostWakeup(states: seq<State>, actions: seq<Action>, n: nat)
    requires IsRun(states, actions) && n < |states|
    ensures var s := states[n];
      HasData(s) ==> s.flushTime != 0 || AppenderOwes(s.appender) || SomeFlusherOwes(s) || WorkerOwes(s)
  {
    RunKeepsInv(states, actions, n);
  }

  /** A FlushTime that is set reaches the manager exactly when no notification has been ignored. */
  lemma SetTimeIsKnown(states: seq<State>, actions: seq<Action>, n: nat)
    requires IsRun(states, actions) && n < |states| && states[n].flushTime != 0
    ensures ManagerKnows(states[n]) <==> !states[n].manager.ignored
  {
    RunKeepsInv(states, actions, n);
  }

  lemma ReturnsByTest(s: State, a: Action, s': State, t: Tid)
    requires Next(s, a, s') && t in s.flushers && !s.flushers[t].FDone? && t in s'.flushers && s'.flushers[t].FDone?
    ensures s.queued == 0 && s'.accepted == s.accepted && s'.finished == s.finished
  {
    if NextAppender(s, a, s') {
      AppenderFrame(s, a, s');
    } else if NextPublish(s, a, s') {
    } else if NextHandOver(s, a, s') {
    } else if NextWait(s, a, s') {
    } else {
      WorkerFrame(s, a, s');
    }
  }

  /** A Flush returns only when every append counted before that moment has been written or has failed. */
  lemma FlushReturnsAfterWriting(states: seq<State>, actions: seq<Action>, n: nat, t: Tid)
    requires IsRun(states, actions) && n < |actions|
    requires t in states[n].flushers && !states[n].flushers[t].FDone?
    requires t in states[n + 1].flushers && states[n + 1].flushers[t].FDone?
    ensures multiset(states[n].accepted) == multiset(states[n].finished)
    ensures states[n + 1].accepted == states[n].accepted && states[n + 1].finished == states[n].finished
  {
    RunKeepsInv(states, actions, n);
    ReturnsByTest(states[n], actions[n], states[n + 1], t);
    NothingQueuedMeansAllFinished(LedgerOf(states[n]));
  }

  /** QueuedBytes never underflows, and with no append in progress it is exactly the bytes in
      buffers that the writer has not finished with. */
  lemma QueuedBytesExact(states: seq<State>, actions: seq<Action>, n: nat)
    requires IsRun(states, actions) && n < |states|
    ensures var s := states[n];
      && s.queued >= 0
      && (s.worker.WSubtract? ==> SumMsgs(Flat(s.worker.data)) <= s.queued)
      && (s.lock != HeldByAppender ==>
            s.queued == SumMsgs(s.queue.current.msgs) + SumMsgs(Flat(s.queue.ready)) + SumMsgs(FlatHeld(s.held))
                        + SumMsgs(Taken(s.worker)) + SumMsgs(Written(s.worker)))
  {
    RunKeepsInv(states, actions, n);
    QueuedNeverUnderflows(LedgerOf(states[n]));
  }

  // ---- the idle manager ----

  /** No record is being added and every Flush caller has returned or is asleep. */
  ghost predicate CallersQuiet(s: State) {
    && s.appender == NoAppender
    && forall t <- s.flushers :: s.flushers[t].FDone? || s.flushers[t].FSleep?
  }

  /** Nobody is left who will move: the management thread sleeps without a time-out. */
  ghost predicate AtRest(s: State) {
    CallersQuiet(s) && s.worker.MIdleWait? && !s.manager.reschedule
  }

  /** Everything accepted is finished and every Flush has been notified. */
  ghost predicate AllDone(s: State) {
    && s.queued == 0 && multiset(s.accepted) == multiset(s.finished)
    && forall t <- s.flushers :: s.flushers[t].FSleep? ==> s.flushers[t].epoch < s.epoch
  }

  /** At rest nothing is in anybody's hands. */
  lemma RestInBuffers(s: State)
    requires Inv(s) && AtRest(s)
    ensures !SomeFlusherOwes(s) && !SomeNotifyPending(s) && s.held == []
    ensures LedgerOf(s).inFlight == [] && Taken(s.worker) == [] && Written(s.worker) == []
  {
    if s.held != [] {
      HeldIsOwed(s);
    }
  }

  lemma RestKnown(s: State)
    requires Inv(s) && AtRest(s) && !s.manager.ignored
    ensures !HasData(s) && AllDone(s)
  {
    RestInBuffers(s);
    assert s.flushTime == 0;
    assert LedgerOf(s).queued == 0;
    NothingQueuedMeansAllFinished(LedgerOf(s));
  }

  /** With nothing accepted all places are empty. */
  lemma NothingAccepted(s: State)
    requires Inv(s) && AtRest(s) && s.accepted == []
    ensures AllDone(s)
  {
    RestInBuffers(s);
    var l := LedgerOf(s);
    NothingAcceptedMeansNothingQueued(l);
    assert s.queued == 0;
    NothingQueuedMeansAllFinished(l);
  }

  lemma RestIgnored(s: State)
    requires Inv(s) && s.manager.ignored && AllDone(s)
    ensures s.accepted == []
  {
    assert |multiset(s.accepted)| == |multiset(s.finished)|;
  }

  /** End to end. When the callers are quiet and the management thread sleeps without a time-out,
      everything accepted is finished and every Flush has been notified, except exactly when a
      notification was ignored and a record has been accepted. */
  lemma IdleMeansDone(states: seq<State>, actions: seq<Action>, n: nat)
    requires IsRun(states, actions) && n < |states| && AtRest(states[n])
    ensures AllDone(states[n]) <==> !states[n].manager.ignored || states[n].accepted == []
    ensures !states[n].manager.ignored ==> !HasData(states[n])
  {
    RunKeepsInv(states, actions, n);
    var s := states[n];
    if !s.manager.ignored {
      RestKnown(s);
    } else if s.accepted == [] {
      NothingAccepted(s);
    } else if AllDone(s) {
      RestIgnored(s);
    }
  }

  // ---- when a notification is ignored ----

  lemma IgnoredByAppender(s: State, a: Action, s': State)
    requires RegisterInv(s) && NextAppender(s, a, s')
    ensures s'.manager.ignored == s.manager.ignored && !a.FNotify?
    ensures s.manager.registered ==> s'.manager.registered
    ensures s'.manager.registered && !s.manager.registered ==> a.ASetRegistered?
  {
    if NextRegister(s, a, s') {
    } else if NextAppend(s, a, s') {
    } else if NextComplete(s, a, s') {
    } else if NextDecide(s, a, s') {
    } else {
      assert NextRequest(s, a, s');
    }
  }

  lemma IgnoredByFlusher(s: State, a: Action, s': State)
    requires NextFlusher(s, a, s')
    ensures s'.manager.ignored <==> s.manager.ignored || (a.FNotify? && !s.manager.registered)
    ensures s'.manager.registered == s.manager.registered
  {
    if NextPublish(s, a, s') {
    } else if NextHandOver(s, a, s') {
    } else {
      assert NextWait(s, a, s');
    }
  }

  lemma IgnoredByWorker(s: State, a: Action, s': State)
    requires NextWorker(s, a, s') || NextForced(s, a, s')
    ensures s'.manager.ignored == s.manager.ignored && s'.manager.registered == s.manager.registered && !a.FNotify?
  {
    WorkerFrame(s, a, s');
  }

  lemma IgnoredStep(s: State, a: Action, s': State)
    requires Inv(s) && Next(s, a, s')
    ensures s'.manager.ignored <==> s.manager.ignored || (a.FNotify? && !s.manager.registered)
    ensures s.manager.registered ==> s'.manager.registered
    ensures s'.manager.registered && !s.manager.registered ==> a.ASetRegistered?
  {
    if NextAppender(s, a, s') {
      IgnoredByAppender(s, a, s');
    } else if NextFlusher(s, a, s') {
      IgnoredByFlusher(s, a, s');
    } else {
      IgnoredByWorker(s, a, s');
    }
  }

  lemma IgnoredInRun(states: seq<State>, actions: seq<Action>, k: nat)
    requires IsRun(states, actions) && k < |actions|
    ensures states[k + 1].manager.ignored <==> states[k].manager.ignored || IgnoredAt(states, actions, k)
    ensures states[k].manager.registered ==> states[k + 1].manager.registered
  {
    RunKeepsInv(states, actions, k);
    IgnoredStep(states[k], actions[k], states[k + 1]);
  }

  /** Step `k` is a notification that finds the backend unregistered. */
  ghost predicate IgnoredAt(states: seq<State>, actions: seq<Action>, k: nat) {
    k < |actions| && k < |states| && actions[k].FNotify? && !states[k].manager.registered
  }

  ghost predicate IgnoredBefore(states: seq<State>, actions: seq<Action>, n: nat) {
    exists k :: 0 <= k < n && IgnoredAt(states, actions, k)
  }

  /** A notification has been ignored exactly when a Flush caller sent one before the first record had
      registered the backend. */
  lemma {:induction false} IgnoredMeans(states: seq<State>, actions: seq<Action>, n: nat)
    requires IsRun(states, actions) && n < |states|
    ensures states[n].manager.ignored <==> IgnoredBefore(states, actions, n)
  {
    if n == 0 {
    } else {
      IgnoredMeans(states, actions, n - 1);
      IgnoredInRun(states, actions, n - 1);
      assert IgnoredBefore(states, actions, n)
          <==> IgnoredBefore(states, actions, n - 1) || IgnoredAt(states, actions, n - 1);
    }
  }

  ghost predicate RegisteredAt(states: seq<State>, k: nat) {
    k < |states| && states[k].manager.registered
  }

  lemma {:induction false} StaysRegistered(states: seq<State>, n: nat, m: nat)
    requires forall k: nat :: k + 1 < |states| && RegisteredAt(states, k) ==> RegisteredAt(states, k + 1)
    requires n <= m < |states| && RegisteredAt(states, n)
    ensures RegisteredAt(states, m)
  {
    if n < m {
      StaysRegistered(states, n, m - 1);
      assert RegisteredAt(states, (m - 1) + 1);
    }
  }

  lemma DecidedAfter(states: seq<State>, actions: seq<Action>, n: nat, m: nat)
    requires IsRun(states, actions) && n <= m < |states| && states[n].manager.registered
    ensures states[m].manager.ignored == states[n].manager.ignored
  {
    IgnoredMeans(states, actions, n);
    IgnoredMeans(states, actions, m);
    forall k: nat | k + 1 < |states| && RegisteredAt(states, k)
      ensures RegisteredAt(states, k + 1)
    {
      IgnoredInRun(states, actions, k);
    }
    forall k | n <= k < m
      ensures !IgnoredAt(states, actions, k)
    {
      StaysRegistered(states, n, k);
    }
  }

  lemma DecidedAtStore(s: State, a: Action, s': State)
    requires Inv(s) && NextRegister(s, a, s') && a.ASetRegistered?
    ensures s'.manager.registered
    ensures s'.manager.ignored <==> s.flushTime != 0 && !SomeNotifyPending(s)
  {
  }

  /** The moment that decides is the store of Registered: a notification is ignored, before or after,
      exactly when FlushTime is then set and no notification is on its way; and that decides what
      every later rest of the manager means. A Flush between AddBackend and that store counts like
      one before it. */
  lemma RegistrationDecides(states: seq<State>, actions: seq<Action>, n: nat, m: nat)
    requires IsRun(states, actions) && n < m < |states| && actions[n].ASetRegistered?
    ensures states[m].manager.ignored <==> states[n].flushTime != 0 && !SomeNotifyPending(states[n])
    ensures AtRest(states[m]) ==>
              (AllDone(states[m])
               <==> states[n].flushTime == 0 || SomeNotifyPending(states[n]) || states[m].accepted == [])
  {
    if AtRest(states[m]) {
      IdleMeansDone(states, actions, m);
    }
    RunKeepsInv(states, actions, n);
    assert NextRegister(states[n], actions[n], states[n + 1]);
    DecidedAtStore(states[n], actions[n], states[n + 1]);
    DecidedAfter(states, actions, n + 1, m);
  }

  /** A caller can rule it out: no Flush before the first record has registered the backend. */
  lemma {:induction false} RecordFirstIsSafe(states: seq<State>, actions: seq<Action>, n: nat)
    requires IsRun(states, actions) && n < |states|
    requires forall k :: 0 <= k < n && actions[k].FBegin? ==> states[k].manager.registered
    ensures !states[n].manager.ignored
    ensures !states[n].manager.registered ==> states[n].flushers == map[]
  {
    if n == 0 {
    } else {
      RecordFirstIsSafe(states, actions, n - 1);
      IgnoredInRun(states, actions, n - 1);
      if !states[n - 1].manager.registered {
        RunKeepsInv(states, actions, n - 1);
        OnlyBeginAdds(states[n - 1], actions[n - 1], states[n]);
      }
    }
  }

  lemma CallerNeeded(s: State, a: Action, s': State)
    requires NextFlusher(s, a, s') && s.flushers == map[]
    ensures a.FBegin?
  {
    if NextPublish(s, a, s') {
    } else if NextHandOver(s, a, s') {
    } else {
      assert NextWait(s, a, s');
    }
  }

  lemma OnlyBeginAdds(s: State, a: Action, s': State)
    requires Inv(s) && Next(s, a, s') && s.flushers == map[] && !a.FBegin?
    ensures s'.flushers == map[] && !a.FNotify?
  {
    if NextFlusher(s, a, s') {
      CallerNeeded(s, a, s');
    } else if NextAppender(s, a, s') {
      AppenderFrame(s, a, s');
      IgnoredByAppender(s, a, s');
    } else {
      WorkerFrame(s, a, s');
      IgnoredByWorker(s, a, s');
    }
  }

  // ---- what an ignored notification does ----

  /** FlushTime is RIGHT_NOW and tells nobody, nothing is ever written, and the bytes stay counted. */
  ghost predicate Stuck(s: State) {
    && s.flushTime == RIGHT_NOW && !ManagerKnows(s) && s.finished == []
    && (s.accepted != [] ==> s.queued > 0)
  }

  lemma IgnoredIsStuck(s: State)
    requires Inv(s) && s.manager.ignored
    ensures Stuck(s)
  {
    QueuedNeverUnderflows(LedgerOf(s));
    if s.queued == 0 {
      NothingQueuedMeansAllFinished(LedgerOf(s));
      assert |multiset(s.accepted)| == |multiset(s.finished)|;
    }
  }

  /** Once a notification has been ignored the backend is stuck for good: nothing is ever written, and
      after the first record every Flush that looks at QueuedBytes goes to sleep. */
  lemma IgnoredIsForever(states: seq<State>, actions: seq<Action>, n: nat, m: nat)
    requires IsRun(states, actions) && n <= m < |states| && states[n].manager.ignored
    ensures Stuck(states[m])
    ensures m < |actions| && actions[m].FTest? && states[m].accepted != []
            ==> states[m + 1].flushers[actions[m].t].FSleep?
  {
    IgnoredMeans(states, actions, n);
    IgnoredMeans(states, actions, m);
    RunKeepsInv(states, actions, m);
    IgnoredIsStuck(states[m]);
  }

  lemma Extend(states: seq<State>, actions: seq<Action>, a: Action, s: State) 
    returns (longer: seq<State>, more: seq<Action>)
    requires IsRun(states, actions) && Next(states[|actions|], a, s)
    ensures IsRun(longer, more) && longer[|more|] == s
  {
    longer, more := states + [s], actions + [a];
    forall i | 0 <= i < |more|
      ensures Next(longer[i], more[i], longer[i + 1])
    {
      if i < |actions| {
        assert longer[i] == states[i] && longer[i + 1] == states[i + 1] && more[i] == actions[i];
      }
    }
  }

  /** The state after a Flush on a backend that has seen no record: it returned at once, and left
      RIGHT_NOW behind. */
  function AfterEarlyFlush(config: Config): State {
    State(config, RIGHT_NOW, 0, Free, Queue(Buf([], 0), 0, false, []), [], NoAppender, map[0 := FDone], MIdleWait,
          Manager(false, false, false, true), 0, [], [])
  }

  function Fresh(config: Config): State {
    State(config, 0, 0, Free, Queue(Buf([], 0), 0, false, []), [], NoAppender, map[], MIdleWait,
          Manager(false, false, false, false), 0, [], [])
  }

  lemma EarlyRequest(config: Config) returns (states: seq<State>, actions: seq<Action>)
    ensures IsRun(states, actions)
    ensures states[|actions|] == Fresh(config).(flushers := map[0 := FRequest(ReqLoad(RIGHT_NOW))])
  {
    var s0 := Fresh(config);
    states, actions := [s0], [];
    var s1 := s0.(flushers := map[0 := FPublish]);
    assert NextPublish(s0, FBegin(0), s1);
    states, actions := Extend(states, actions, FBegin(0), s1);
    var s2 := s0.(flushers := map[0 := FRequest(ReqLoad(RIGHT_NOW))]);
    assert NextPublish(s1, FTake(0, false), s2);
    states, actions := Extend(states, actions, FTake(0, false), s2);
  }

  lemma EarlyStore(config: Config) returns (states: seq<State>, actions: seq<Action>)
    ensures IsRun(states, actions)
    ensures states[|actions|]
            == Fresh(config).(flushTime := RIGHT_NOW, flushers := map[0 := FRequest(ReqNotify(RIGHT_NOW))])
  {
    states, actions := EarlyRequest(config);
    var s2 := states[|actions|];
    var s3 := s2.(flushers := map[0 := FRequest(ReqLoop(RIGHT_NOW, 0))]);
    assert NextWait(s2, FRequestStep(0), s3);
    states, actions := Extend(states, actions, FRequestStep(0), s3);
    var s4 := s2.(flushTime := RIGHT_NOW, flushers := map[0 := FRequest(ReqNotify(RIGHT_NOW))]);
    assert NextWait(s3, FRequestStep(0), s4);
    states, actions := Extend(states, actions, FRequestStep(0), s4);
  }

  lemma EarlyFlush(config: Config) returns (states: seq<State>, actions: seq<Action>)
    ensures IsRun(states, actions) && states[|actions|] == AfterEarlyFlush(config)
  {
    states, actions := EarlyStore(config);
    var s4 := states[|actions|];
    var s5 := AfterEarlyFlush(config).(flushers := map[0 := FWait]);
    assert NextWait(s4, FNotify(0, true), s5);
    states, actions := Extend(states, actions, FNotify(0, true), s5);
    var s6 := AfterEarlyFlush(config);
    assert NextWait(s5, FTest(0), s6);
    states, actions := Extend(states, actions, FTest(0), s6);
  }

  lemma EarlyFlushThenRecord(config: Config, m: Msg) returns (states: seq<State>, actions: seq<Action>)
    ensures IsRun(states, actions)
    ensures states[|actions|] == AfterEarlyFlush(config).(lock := HeldByAppender, appender := ALoad(m),
                                                          manager := Manager(true, false, false, true))
  {
    states, actions := EarlyFlush(config);
    var s0 := states[|actions|];
    var s1 := s0.(lock := HeldByAppender, appender := AAdd(m));
    assert NextRegister(s0, ABegin(m), s1);
    states, actions := Extend(states, actions, ABegin(m), s1);
    var s2 := s1.(appender := AStore(m));
    assert NextRegister(s1, AAddBackend, s2);
    states, actions := Extend(states, actions, AAddBackend, s2);
    var s3 := s1.(manager := s1.manager.(registered := true), appender := ALoad(m));
    assert NextRegister(s2, ASetRegistered(true), s3);
    states, actions := Extend(states, actions, ASetRegistered(true), s3);
  }

  lemma RecordIsQueued(config: Config, m: Msg, now: nat) returns (states: seq<State>, actions: seq<Action>)
    requires m.size <= config.capacity && now > RIGHT_NOW
    ensures IsRun(states, actions)
    ensures states[|actions|]
            == AfterEarlyFlush(config).(lock := HeldByAppender, appender := ACount(m, true),
                                        manager := Manager(true, false, false, true),
                                        queue := Queue(Buf([m], now), now, true, []))
  {
    states, actions := EarlyFlushThenRecord(config, m);
    var s3 := states[|actions|];
    var s4 := s3.(appender := AQueue(m, now));
    assert NextAppend(s3, AFirstLoad(now), s4);
    states, actions := Extend(states, actions, AFirstLoad(now), s4);
    var s5 := s3.(queue := Queue(Buf([], now), now, false, []), appender := AFlag(m));
    assert NextAppend(s4, AAppend(false), s5);
    states, actions := Extend(states, actions, AAppend(false), s5);
    var s6 := s3.(queue := Queue(Buf([m], now), now, true, []), appender := ACount(m, true));
    assert NextComplete(s5, ASetFlag, s6);
    states, actions := Extend(states, actions, ASetFlag, s6);
  }

  /** The run that fails, for every record: a Flush, then the record. Its bytes stay in the buffer
      while everybody sleeps. */
  lemma EarlyFlushLosesRecord(config: Config, m: Msg, now: nat) returns (states: seq<State>, actions: seq<Action>)
    requires m.size <= config.capacity && now > RIGHT_NOW
    ensures IsRun(states, actions)
    ensures var s := states[|actions|];
      AtRest(s) && s.manager.registered && s.accepted == [m] && HasData(s) && s.queued == m.size && !AllDone(s)
  {
    states, actions := RecordIsQueued(config, m, now);
    var s6 := states[|actions|];
    var s7 := s6.(queued := m.size, accepted := [m], appender := ADecide(m, true));
    assert NextComplete(s6, ARaise, s7);
    states, actions := Extend(states, actions, ARaise, s7);
    var s8 := s7.(appender := AMirror(0));
    assert NextDecide(s7, AChoose(false, now), s8);
    states, actions := Extend(states, actions, AChoose(false, now), s8);
    var s9 := s7.(appender := NoAppender, lock := Free);
    assert NextDecide(s8, ASetMirror, s9);
    states, actions := Extend(states, actions, ASetMirror, s9);
  }
}
