/** What every step of the file pipeline keeps. Each part of the invariant has its own lemma; the
    parts that talk about wake-ups rely on the data lock and on the two mirrors. */
module FlushInvariants {
  import opened FlushProtocol

  // ---- data lock ----

  ghost predicate LockInv(s: State) {
    && (s.lock == HeldByAppender <==> s.appender != NoAppender)
    && (s.lock == HeldByWorker <==> s.worker.WClear?)
    && (forall t <- s.flushers :: s.flushers[t].FClear? ==> s.lock == HeldByFlusher(t))
    && (forall t :: s.lock == HeldByFlusher(t) ==> t in s.flushers && s.flushers[t].FClear?)
  }

  // ---- current buffer and its mirrors ----

  /** Data in the current buffer is always visible to the worker through both mirrors. */
  ghost predicate MirrorInv(s: State) {
    && (s.queue.current.msgs != [] ==> s.queue.flagMirror && s.queue.timeMirror != 0 && s.queue.current.first != 0)
    && ((s.lock.HeldByFlusher? || s.lock.HeldByWorker?) ==> s.queue.current.msgs == [])
    && (match s.appender
        case AQueue(m, first) => first != 0
        case AFlag(m) => s.queue.current.msgs == [] && s.queue.timeMirror != 0 && s.queue.current.first != 0
        case ASwapFlag(m, full) => s.queue.current.msgs == [m]
        case _ => true)
  }

  /** What the threads leave alone. */
  lemma AppenderFrame(s: State, a: Action, s': State)
    requires NextAppender(s, a, s')
    ensures s'.flushers == s.flushers && s'.held == s.held && s'.worker == s.worker && s'.epoch == s.epoch
    ensures s'.finished == s.finished
  {
    if NextRegister(s, a, s') {
    } else if NextAppend(s, a, s') {
    } else if NextComplete(s, a, s') {
    } else if NextDecide(s, a, s') {
    } else {
      assert NextRequest(s, a, s');
    }
  }

  lemma FlusherFrame(s: State, a: Action, s': State)
    requires NextFlusher(s, a, s')
    ensures s'.appender == s.appender && s'.worker == s.worker && s'.epoch == s.epoch
    ensures s'.manager.registered == s.manager.registered
    ensures s'.queued == s.queued && s'.accepted == s.accepted && s'.finished == s.finished
    ensures a.t in s'.flushers && s'.flushers == s.flushers[a.t := s'.flushers[a.t]]
  {
    if NextPublish(s, a, s') {
    } else if NextHandOver(s, a, s') {
    } else {
      assert NextWait(s, a, s');
    }
  }

  lemma WorkerFrame(s: State, a: Action, s': State)
    requires NextWorker(s, a, s') || NextForced(s, a, s')
    ensures s'.appender == s.appender && s'.flushers == s.flushers && s'.held == s.held && s'.accepted == s.accepted
    ensures s'.manager.registered == s.manager.registered && s'.manager.ignored == s.manager.ignored
  {
    if NextManager(s, a, s') {
    } else if NextWriter(s, a, s') {
    } else if NextLook(s, a, s') {
    } else if NextRecheck(s, a, s') {
    } else {
      assert NextForced(s, a, s');
    }
  }

  lemma WorkerLeavesCurrent(s: State, a: Action, s': State)
    requires NextWorker(s, a, s')
    ensures s'.lock == s.lock && s'.queue == s.queue.(ready := s'.queue.ready)
    ensures s'.worker.WClear? <==> s.worker.WClear?
  {
    if NextManager(s, a, s') {
    } else if NextWriter(s, a, s') {
    } else if NextLook(s, a, s') {
    } else {
      assert NextRecheck(s, a, s');
    }
  }

  lemma DataKeptByAppend(s: State, a: Action, s': State)
    requires LockInv(s) && MirrorInv(s) && (NextRegister(s, a, s') || NextAppend(s, a, s'))
    ensures LockInv(s') && MirrorInv(s')
  {
  }

  lemma DataKeptByComplete(s: State, a: Action, s': State)
    requires LockInv(s) && MirrorInv(s)
    requires NextComplete(s, a, s') || NextDecide(s, a, s') || NextRequest(s, a, s')
    ensures LockInv(s') && MirrorInv(s')
  {
  }

  lemma DataKeptByFlusher(s: State, a: Action, s': State)
    requires LockInv(s) && MirrorInv(s) && NextFlusher(s, a, s')
    ensures LockInv(s') && MirrorInv(s')
  {
    if NextPublish(s, a, s') {
    } else if NextHandOver(s, a, s') {
    } else {
      assert NextWait(s, a, s');
    }
  }

  lemma DataKeptByForced(s: State, a: Action, s': State)
    requires LockInv(s) && MirrorInv(s) && NextForced(s, a, s')
    ensures LockInv(s') && MirrorInv(s')
  {
  }

  lemma DataKept(s: State, a: Action, s': State)
    requires LockInv(s) && MirrorInv(s) && Next(s, a, s')
    ensures LockInv(s') && MirrorInv(s')
  {
    if NextRegister(s, a, s') || NextAppend(s, a, s') {
      DataKeptByAppend(s, a, s');
    } else if NextAppender(s, a, s') {
      DataKeptByComplete(s, a, s');
    } else if NextFlusher(s, a, s') {
      DataKeptByFlusher(s, a, s');
    } else if NextForced(s, a, s') {
      DataKeptByForced(s, a, s');
    } else {
      WorkerFrame(s, a, s');
      WorkerLeavesCurrent(s, a, s');
    }
  }

  /** Requests carry a time that is not 0; buffers in hand belong to a caller that is publishing. */
  ghost predicate HolderInv(s: State) {
    && (s.appender.ARequest? ==> s.appender.req.when != 0)
    && (forall t <- s.flushers :: s.flushers[t].FRequest? ==> s.flushers[t].req.when == RIGHT_NOW)
    && (s.worker.UStore? ==> s.worker.oldest != 0)
    && (forall i, j :: 0 <= i < j < |s.held| ==> s.held[i].0 != s.held[j].0)
    && (forall i :: 0 <= i < |s.held| ==>
          s.held[i].0 in s.flushers
          && (s.flushers[s.held[i].0].FClear? || s.flushers[s.held[i].0].FEnqueue?))
  }

  lemma HolderKeptByPublish(s: State, a: Action, s': State)
    requires HolderInv(s) && NextPublish(s, a, s')
    ensures HolderInv(s')
  {
  }

  lemma HolderKeptByHandOver(s: State, a: Action, s': State)
    requires HolderInv(s) && (NextHandOver(s, a, s') || NextWait(s, a, s'))
    ensures HolderInv(s')
  {
  }

  lemma HolderKeptByWorker(s: State, a: Action, s': State)
    requires HolderInv(s) && (NextWorker(s, a, s') || NextForced(s, a, s'))
    ensures HolderInv(s')
  {
    WorkerFrame(s, a, s');
    if NextManager(s, a, s') {
    } else if NextWriter(s, a, s') {
    } else if NextLook(s, a, s') {
    } else if NextRecheck(s, a, s') {
    } else {
      assert NextForced(s, a, s');
    }
  }

  lemma HolderKeptByAppender(s: State, a: Action, s': State)
    requires HolderInv(s) && NextAppender(s, a, s')
    ensures HolderInv(s')
  {
    AppenderFrame(s, a, s');
    if NextRegister(s, a, s') {
    } else if NextAppend(s, a, s') {
    } else if NextComplete(s, a, s') {
    } else if NextDecide(s, a, s') {
    } else {
      assert NextRequest(s, a, s');
    }
  }

  lemma HolderKept(s: State, a: Action, s': State)
    requires HolderInv(s) && Next(s, a, s')
    ensures HolderInv(s')
  {
    if NextAppender(s, a, s') {
      HolderKeptByAppender(s, a, s');
    } else if NextPublish(s, a, s') {
      HolderKeptByPublish(s, a, s');
    } else if NextFlusher(s, a, s') {
      HolderKeptByHandOver(s, a, s');
    } else {
      HolderKeptByWorker(s, a, s');
    }
  }

  // ---- somebody will wake the worker ----

  predicate RequestOwes(r: Request) {
    r.ReqLoad? || (r.ReqLoop? && r.seen == 0)
  }

  /** The appender has yet to look at FlushTime, or has seen it 0 and is about to set it. */
  predicate AppenderOwes(a: Appender) {
    match a
    case ASwapFlag(_, _) => true
    case AEnqueue(_, _) => true
    case ACount(_, firstData) => firstData
    case ADecide(_, firstData) => firstData
    case AMirror(when) => when != 0
    case ARequest(req) => RequestOwes(req)
    case _ => false
  }

  /** A Flush caller has yet to finish its RequestFlush(RIGHT_NOW). */
  predicate FlusherOwes(f: Flusher) {
    match f
    case FPublish => true
    case FSwap => true
    case FClear => true
    case FEnqueue => true
    case FRequest(req) => RequestOwes(req)
    case _ => false
  }

  ghost predicate SomeFlusherOwes(s: State) {
    exists t <- s.flushers :: FlusherOwes(s.flushers[t])
  }

  /** The worker has set FlushTime to 0 (or found it 0) and still has a look to take that will
      find the data. */
  predicate WorkerOwes(s: State) {
    match s.worker
    case UReadyAgain => true
    case UTimeAgain(_) => true
    case UHasReady => true
    case UFlagAgain => s.queue.flagMirror
    case UStore(_) => true
    case UStoreNow => true
    case UStoreLater => true
    case _ => false
  }

  /** Bytes that no write has taken yet, wherever they are. */
  predicate HasData(s: State) {
    || s.queue.current.msgs != [] || s.queue.ready != [] || s.held != []
    || s.appender.ASwapFlag? || s.appender.AEnqueue? || s.worker.WClear? || s.worker.WEnqueue?
  }

  ghost predicate WakeInv(s: State) {
    HasData(s) ==> s.flushTime != 0 || AppenderOwes(s.appender) || SomeFlusherOwes(s) || WorkerOwes(s)
  }

  /** A Flush caller with a buffer in hand still has to finish its RequestFlush. */
  lemma HeldIsOwed(s: State)
    requires HolderInv(s) && s.held != []
    ensures SomeFlusherOwes(s)
  {
    assert FlusherOwes(s.flushers[s.held[0].0]);
  }

  /** A step of one Flush caller leaves what the others owe. */
  lemma OthersStillOwe(s: State, s': State, t: Tid)
    requires SomeFlusherOwes(s) && t in s'.flushers && s'.flushers == s.flushers[t := s'.flushers[t]]
    requires t in s.flushers && FlusherOwes(s.flushers[t]) ==> FlusherOwes(s'.flushers[t])
    ensures SomeFlusherOwes(s')
  {
    var u :| u in s.flushers && FlusherOwes(s.flushers[u]);
    assert FlusherOwes(s'.flushers[u]);
  }

  lemma WakeKeptByAppend(s: State, a: Action, s': State)
    requires LockInv(s) && MirrorInv(s) && HolderInv(s) && WakeInv(s) && (NextRegister(s, a, s') || NextAppend(s, a, s'))
    ensures WakeInv(s')
  {
    assert SomeFlusherOwes(s) ==> SomeFlusherOwes(s');
  }

  lemma WakeKeptByComplete(s: State, a: Action, s': State)
    requires LockInv(s) && MirrorInv(s) && HolderInv(s) && WakeInv(s) && NextComplete(s, a, s')
    ensures WakeInv(s')
  {
    assert SomeFlusherOwes(s) ==> SomeFlusherOwes(s');
  }

  lemma WakeKeptByRequest(s: State, a: Action, s': State)
    requires LockInv(s) && MirrorInv(s) && HolderInv(s) && WakeInv(s) && (NextDecide(s, a, s') || NextRequest(s, a, s'))
    ensures WakeInv(s')
  {
    assert SomeFlusherOwes(s) ==> SomeFlusherOwes(s');
  }

  lemma WakeKeptByFlusher(s: State, a: Action, s': State)
    requires LockInv(s) && MirrorInv(s) && HolderInv(s) && WakeInv(s) && NextFlusher(s, a, s')
    ensures WakeInv(s')
  {
    FlusherFrame(s, a, s');
    var t := a.t;
    if SomeFlusherOwes(s) && (t in s.flushers && FlusherOwes(s.flushers[t]) ==> FlusherOwes(s'.flushers[t])) {
      OthersStillOwe(s, s', t);
    }
    assert FlusherOwes(s'.flushers[t]) ==> SomeFlusherOwes(s');
    if NextPublish(s, a, s') {
    } else if NextHandOver(s, a, s') {
    } else {
      assert NextWait(s, a, s');
    }
  }

  lemma WakeKeptByWriter(s: State, a: Action, s': State)
    requires LockInv(s) && MirrorInv(s) && HolderInv(s) && WakeInv(s)
    requires NextManager(s, a, s') || NextWriter(s, a, s')
    ensures WakeInv(s')
  {
    WorkerFrame(s, a, s');
    assert SomeFlusherOwes(s) ==> SomeFlusherOwes(s');
    if NextManager(s, a, s') {
    } else {
      assert NextWriter(s, a, s');
    }
  }

  lemma WakeKeptByForced(s: State, a: Action, s': State)
    requires LockInv(s) && MirrorInv(s) && HolderInv(s) && WakeInv(s) && NextForced(s, a, s')
    ensures WakeInv(s')
  {
    assert SomeFlusherOwes(s) ==> SomeFlusherOwes(s');
  }

  lemma WakeKeptByLook(s: State, a: Action, s': State)
    requires LockInv(s) && MirrorInv(s) && HolderInv(s) && WakeInv(s) && NextLook(s, a, s')
    ensures WakeInv(s')
  {
    assert SomeFlusherOwes(s) ==> SomeFlusherOwes(s');
  }

  lemma WakeKeptByRecheck(s: State, a: Action, s': State)
    requires LockInv(s) && MirrorInv(s) && HolderInv(s) && WakeInv(s) && NextRecheck(s, a, s')
    ensures WakeInv(s')
  {
    assert SomeFlusherOwes(s) ==> SomeFlusherOwes(s');
    if s.held != [] {
      HeldIsOwed(s);
    }
  }

  lemma WakeKept(s: State, a: Action, s': State)
    requires LockInv(s) && MirrorInv(s) && HolderInv(s) && WakeInv(s) && Next(s, a, s')
    ensures WakeInv(s')
  {
    if NextRegister(s, a, s') || NextAppend(s, a, s') {
      WakeKeptByAppend(s, a, s');
    } else if NextComplete(s, a, s') {
      WakeKeptByComplete(s, a, s');
    } else if NextAppender(s, a, s') {
      WakeKeptByRequest(s, a, s');
    } else if NextFlusher(s, a, s') {
      WakeKeptByFlusher(s, a, s');
    } else if NextForced(s, a, s') {
      WakeKeptByForced(s, a, s');
    } else if NextLook(s, a, s') {
      WakeKeptByLook(s, a, s');
    } else if NextRecheck(s, a, s') {
      WakeKeptByRecheck(s, a, s');
    } else {
      WakeKeptByWriter(s, a, s');
    }
  }

  // ---- the manager knows about the backend ----

  predicate NotifyPending(a: Appender) {
    a.ARequest? && a.req.ReqNotify?
  }

  predicate AtNotify(f: Flusher) {
    f.FRequest? && f.req.ReqNotify?
  }

  ghost predicate SomeNotifyPending(s: State) {
    exists t <- s.flushers :: AtNotify(s.flushers[t])
  }

  /** The management thread is inside this backend's WorkerFunc, or has yet to reactivate it. */
  predicate Running(w: Worker) {
    !w.MIdleWait? && !w.MTimedWait? && !w.MElsewhere? && !w.MHead?
  }

  /** The manager will look at FlushTime: the backend is in its list, is being run, or a notification
      is on its way. */
  ghost predicate ManagerKnows(s: State) {
    s.manager.linked || NotifyPending(s.appender) || SomeNotifyPending(s) || Running(s.worker)
  }

  /** Before the first record has registered the backend only Flush callers have touched it, and at
      most one of them has set FlushTime. */
  ghost predicate RegisterInv(s: State) {
    && (s.appender.AAdd? || s.appender.AStore? ==> !s.manager.registered)
    && (!s.manager.registered ==>
          && !s.manager.linked && !Running(s.worker) && s.finished == []
          && (s.appender.NoAppender? || s.appender.AAdd? || s.appender.AStore?)
          && (s.flushTime == 0 || s.flushTime == RIGHT_NOW)
          && (SomeNotifyPending(s) ==> s.flushTime == RIGHT_NOW)
          && (forall t, u :: t in s.flushers && u in s.flushers && AtNotify(s.flushers[t]) && AtNotify(s.flushers[u])
                             ==> t == u))
  }

  /** A FlushTime that is set is known to the manager, unless it has ignored the notification; then it
      is RIGHT_NOW and nothing has ever been written. */
  ghost predicate LinkInv(s: State) {
    && (s.flushTime != 0 ==> (ManagerKnows(s) <==> !s.manager.ignored))
    && (s.manager.ignored ==> s.flushTime == RIGHT_NOW && s.finished == [])
    && (s.manager.linked && s.worker.MIdleWait? ==> s.manager.reschedule)
  }

  /** A Flush caller that neither has nor gets a notification to send. */
  lemma PendingOfOthers(s: State, s': State, t: Tid)
    requires t in s'.flushers && s'.flushers == s.flushers[t := s'.flushers[t]] && !AtNotify(s'.flushers[t])
    requires t in s.flushers ==> !AtNotify(s.flushers[t])
    ensures SomeNotifyPending(s) <==> SomeNotifyPending(s')
  {
    if SomeNotifyPending(s) {
      var u :| u in s.flushers && AtNotify(s.flushers[u]);
      assert s'.flushers[u] == s.flushers[u];
    }
  }

  lemma RegisterKeptByAppender(s: State, a: Action, s': State)
    requires RegisterInv(s) && NextAppender(s, a, s')
    ensures RegisterInv(s')
  {
    AppenderFrame(s, a, s');
    assert SomeNotifyPending(s) <==> SomeNotifyPending(s');
    if NextRegister(s, a, s') {
    } else if NextAppend(s, a, s') {
    } else if NextComplete(s, a, s') {
    } else if NextDecide(s, a, s') {
    } else {
      assert NextRequest(s, a, s');
    }
  }

  lemma RegisterKeptByPublish(s: State, a: Action, s': State)
    requires RegisterInv(s) && (NextPublish(s, a, s') || NextHandOver(s, a, s'))
    ensures RegisterInv(s')
  {
    FlusherFrame(s, a, s');
    PendingOfOthers(s, s', a.t);
  }

  lemma RegisterKeptByWait(s: State, a: Action, s': State)
    requires HolderInv(s) && RegisterInv(s) && NextWait(s, a, s')
    ensures RegisterInv(s')
  {
    FlusherFrame(s, a, s');
    if AtNotify(s'.flushers[a.t]) {
      assert s'.flushTime == RIGHT_NOW;
      assert !s.manager.registered ==> !SomeNotifyPending(s);
    } else if AtNotify(s.flushers[a.t]) {
      assert SomeNotifyPending(s);
    } else {
      PendingOfOthers(s, s', a.t);
    }
  }

  lemma RegisterKeptByWorker(s: State, a: Action, s': State)
    requires RegisterInv(s) && (NextWorker(s, a, s') || NextForced(s, a, s'))
    ensures RegisterInv(s')
  {
    WorkerFrame(s, a, s');
    assert SomeNotifyPending(s) <==> SomeNotifyPending(s');
    if NextManager(s, a, s') {
    } else if NextWriter(s, a, s') {
    } else if NextLook(s, a, s') {
    } else if NextRecheck(s, a, s') {
    } else {
      assert NextForced(s, a, s');
    }
  }

  lemma RegisterKept(s: State, a: Action, s': State)
    requires HolderInv(s) && RegisterInv(s) && Next(s, a, s')
    ensures RegisterInv(s')
  {
    if NextAppender(s, a, s') {
      RegisterKeptByAppender(s, a, s');
    } else if NextPublish(s, a, s') || NextHandOver(s, a, s') {
      RegisterKeptByPublish(s, a, s');
    } else if NextWait(s, a, s') {
      RegisterKeptByWait(s, a, s');
    } else {
      RegisterKeptByWorker(s, a, s');
    }
  }

  /** With RIGHT_NOW in FlushTime every later request gives up. */
  lemma NoSecondRequest(r: Request, flushTime: nat)
    requires !r.ReqNotify? && flushTime == RIGHT_NOW
    ensures !RequestStep(r, flushTime).next.ReqNotify? && RequestStep(r, flushTime).flushTime == RIGHT_NOW
  {
  }

  lemma LinkKeptByRecord(s: State, a: Action, s': State)
    requires LockInv(s) && LinkInv(s) && NextAppender(s, a, s') && !NextRequest(s, a, s')
    ensures LinkInv(s')
  {
    AppenderFrame(s, a, s');
    assert SomeNotifyPending(s) <==> SomeNotifyPending(s');
    if NextRegister(s, a, s') {
    } else if NextAppend(s, a, s') {
    } else if NextComplete(s, a, s') {
    } else {
      assert NextDecide(s, a, s');
    }
  }

  lemma LinkKeptByRequest(s: State, a: Action, s': State)
    requires RegisterInv(s) && LinkInv(s) && NextRequest(s, a, s')
    ensures LinkInv(s')
  {
    AppenderFrame(s, a, s');
    assert SomeNotifyPending(s) <==> SomeNotifyPending(s');
    if a.ARequestStep? && s.flushTime == RIGHT_NOW {
      NoSecondRequest(s.appender.req, s.flushTime);
    }
  }

  lemma LinkKeptByPublish(s: State, a: Action, s': State)
    requires LinkInv(s) && (NextPublish(s, a, s') || NextHandOver(s, a, s'))
    ensures LinkInv(s')
  {
    FlusherFrame(s, a, s');
    PendingOfOthers(s, s', a.t);
  }

  lemma LinkKeptByWait(s: State, a: Action, s': State)
    requires RegisterInv(s) && LinkInv(s) && NextWait(s, a, s')
    ensures LinkInv(s')
  {
    FlusherFrame(s, a, s');
    if AtNotify(s'.flushers[a.t]) {
      assert SomeNotifyPending(s');
    } else if AtNotify(s.flushers[a.t]) {
      assert SomeNotifyPending(s);
      assert !s.manager.registered ==> !SomeNotifyPending(s');
    } else {
      PendingOfOthers(s, s', a.t);
    }
  }

  lemma LinkKeptByManager(s: State, a: Action, s': State)
    requires LinkInv(s) && NextManager(s, a, s')
    ensures LinkInv(s')
  {
    WorkerFrame(s, a, s');
    assert SomeNotifyPending(s) <==> SomeNotifyPending(s');
  }

  /** While the worker runs, FlushTime belongs to it. */
  lemma LinkKeptWhileRunning(s: State, a: Action, s': State)
    requires LinkInv(s)
    requires NextWriter(s, a, s') || NextForced(s, a, s') || NextLook(s, a, s') || NextRecheck(s, a, s')
    ensures LinkInv(s')
  {
    WorkerFrame(s, a, s');
    if NextWriter(s, a, s') {
      assert Running(s.worker) && Running(s'.worker);
    } else if NextForced(s, a, s') {
      assert Running(s.worker) && Running(s'.worker);
    } else {
      assert Running(s.worker) && Running(s'.worker);
    }
  }

  lemma LinkKept(s: State, a: Action, s': State)
    requires LockInv(s) && RegisterInv(s) && LinkInv(s) && Next(s, a, s')
    ensures LinkInv(s')
  {
    if NextRequest(s, a, s') {
      LinkKeptByRequest(s, a, s');
    } else if NextAppender(s, a, s') {
      LinkKeptByRecord(s, a, s');
    } else if NextPublish(s, a, s') || NextHandOver(s, a, s') {
      LinkKeptByPublish(s, a, s');
    } else if NextWait(s, a, s') {
      LinkKeptByWait(s, a, s');
    } else if NextManager(s, a, s') {
      LinkKeptByManager(s, a, s');
    } else {
      LinkKeptWhileRunning(s, a, s');
    }
  }

  // ---- waiting on Done ----

  predicate AboutToNotify(w: Worker) {
    w.WCheck? || w.WNotify?
  }

  /** A caller that fell asleep, and that nobody has notified since, is about to be notified as soon
      as QueuedBytes is 0. */
  ghost predicate SleepInv(s: State) {
    forall t <- s.flushers :: s.flushers[t].FSleep? ==>
      && s.flushers[t].epoch <= s.epoch
      && (s.flushers[t].epoch == s.epoch && s.queued == 0 ==> AboutToNotify(s.worker))
  }

  lemma SleepKeptByAppender(s: State, a: Action, s': State)
    requires SleepInv(s) && s.queued >= 0 && NextAppender(s, a, s')
    ensures SleepInv(s')
  {
    AppenderFrame(s, a, s');
    assert s'.queued >= s.queued by {
      if NextRegister(s, a, s') {
      } else if NextAppend(s, a, s') {
      } else if NextComplete(s, a, s') {
      } else if NextDecide(s, a, s') {
      } else {
        assert NextRequest(s, a, s');
      }
    }
  }

  lemma SleepKeptByFlusher(s: State, a: Action, s': State)
    requires SleepInv(s) && NextFlusher(s, a, s')
    ensures SleepInv(s')
  {
    FlusherFrame(s, a, s');
    if NextPublish(s, a, s') {
    } else if NextHandOver(s, a, s') {
    } else {
      assert NextWait(s, a, s');
    }
  }

  lemma SleepKeptByWriter(s: State, a: Action, s': State)
    requires SleepInv(s) && NextWriter(s, a, s')
    ensures SleepInv(s')
  {
    WorkerFrame(s, a, s');
  }

  lemma SleepKeptByOthers(s: State, a: Action, s': State)
    requires SleepInv(s)
    requires NextManager(s, a, s') || NextForced(s, a, s') || NextLook(s, a, s') || NextRecheck(s, a, s')
    ensures SleepInv(s')
  {
    WorkerFrame(s, a, s');
    assert s'.epoch == s.epoch && s'.queued == s.queued;
    assert AboutToNotify(s.worker) ==> AboutToNotify(s'.worker);
  }

  lemma SleepKept(s: State, a: Action, s': State)
    requires SleepInv(s) && s.queued >= 0 && Next(s, a, s')
    ensures SleepInv(s')
  {
    if NextAppender(s, a, s') {
      SleepKeptByAppender(s, a, s');
    } else if NextFlusher(s, a, s') {
      SleepKeptByFlusher(s, a, s');
    } else if NextWriter(s, a, s') {
      SleepKeptByWriter(s, a, s');
    } else {
      SleepKeptByOthers(s, a, s');
    }
  }
}
