/** The asynchronous file pipeline as a state machine: appenders, `Flush` callers and the one
    management thread that runs `FileBackend::WorkerFunc`.

    A step is one lock section or one access to an atomic. The channel's data lock serialises
    appenders and the swap inside `BufferQueue::PublishCurrent`; `FlushTime`, `QueuedBytes` and
    the two mirrors of the current buffer (`CurrentFirstWriteTime`, `HasCurrentDataFlag`) are
    read without it. */
module FlushProtocol {

  /** `FileBackend::RIGHT_NOW`: smaller than every real time stamp. */
  const RIGHT_NOW: nat := 1

  /** WorkerFunc's bound on its write loop. */
  const MAX_WRITE_LOOPS: nat := 5

  datatype MsgData = MsgData(id: nat, size: nat)

  /** One call of AppendOutputData; a call with no bytes returns before it touches anything. */
  type Msg = m: MsgData | 0 < m.size witness MsgData(0, 1)

  /** A DataBuffer seen from outside: the whole appends it holds and its first-write time. */
  datatype Buf = Buf(msgs: seq<Msg>, first: nat)

  type Tid = nat

  /** Who holds the channel's data lock. */
  datatype Lock = Free | HeldByAppender | HeldByFlusher(tid: Tid) | HeldByWorker

  /** Progress through RequestFlush(when). */
  datatype Request =
    | ReqLoad(when: nat)             // about to load FlushTime
    | ReqLoop(when: nat, seen: nat)  // about to test `seen`, then compare-exchange
    | ReqNotify(when: nat)           // FlushTime stored, manager not yet notified

  /** The appender inside AppendOutputData; it holds the data lock throughout. */
  datatype Appender =
    | NoAppender
    | AAdd(m: Msg)                                   // RegisterAsync: about to add the backend to the manager
    | AStore(m: Msg)                                 // added; about to store Registered
    | ALoad(m: Msg)                                  // loads FlushTime for the first-write time
    | AQueue(m: Msg, first: nat)                     // enters BufferQueue::Append
    | AFlag(m: Msg)                                  // time mirror set on an empty buffer, flag is next
    | ASwapFlag(m: Msg, full: Buf)                   // Current replaced and filled, flag is next
    | AEnqueue(m: Msg, full: Buf)                    // full buffer still to be put on the ready list
    | ACount(m: Msg, firstData: bool)                // bytes appended, QueuedBytes not yet raised
    | ADecide(m: Msg, firstData: bool)               // loads FlushTime again and decides
    | AMirror(when: nat)                             // SetCurrentFirstWriteTime, then RequestFlush if when != 0
    | ARequest(req: Request)

  /** A caller of FileBackend::Flush. */
  datatype Flusher =
    | FPublish                // about to get a replacement buffer for PublishCurrent
    | FSwap                   // has one; about to lock and swap
    | FClear                  // swapped under the lock; flag still to be cleared
    | FEnqueue                // lock released; the published buffer still to be put on the ready list
    | FRequest(req: Request)
    | FWait                   // about to test QueuedBytes == 0 under BufferLock
    | FSleep(epoch: nat)      // asleep on Done since notification number `epoch`
    | FDone

  /** The management thread: its own loop, then one run of WorkerFunc. */
  datatype Worker =
    | MIdleWait                                      // waits on the condition variable, list seen empty
    | MTimedWait                                     // waits with a time-out
    | MElsewhere                                     // runs another backend
    | MHead                                          // holds the manager's lock, looks at the list head
    | WStart                                         // WorkerFunc entered
    | WTake(i: nat, force: bool)                     // about to TakeReady
    | WEmpty(i: nat, force: bool)                    // took nothing; tests QueuedBytes
    | WEmptyNotify(i: nat, force: bool)
    | WPublish(i: nat)                               // forced run: about to get a replacement buffer
    | WWrite(i: nat, data: seq<Buf>)                 // took these buffers, writes them
    | WSubtract(i: nat, data: seq<Buf>)              // written (or failed); lowers QueuedBytes
    | WCheck(i: nat)                                 // recycled; tests QueuedBytes
    | WNotify(i: nat)
    | WSwap(i: nat)                                  // PublishCurrent: has a replacement
    | WClear(i: nat, full: Buf)
    | WEnqueue(i: nat, full: Buf)
    | UReady                                         // UpdateFlushTimeAfterWork: first look
    | UTime(ready: nat)
    | UFlag
    | ULoad
    | UClear(expected: nat)                          // compare-exchange FlushTime to 0
    | UReadyAgain                                    // second look, after FlushTime may have become 0
    | UTimeAgain(ready: nat)
    | UHasReady
    | UFlagAgain
    | UStore(oldest: nat)                            // stores RIGHT_NOW or oldest + FlushAfter
    | UStoreNow
    | UStoreLater
    | MBack                                          // WorkerFunc returned; (de)activates the backend

  datatype Config = Config(flushAfter: nat, capacity: nat)

  /** The fields of the BufferQueue. */
  datatype Queue = Queue(
    current: Buf,
    timeMirror: nat,                  // CurrentFirstWriteTime
    flagMirror: bool,                 // HasCurrentDataFlag
    ready: seq<Buf>
  )

  /** What the manager knows of this backend. */
  datatype Manager = Manager(
    registered: bool,                 // Registered, set for good by the first record
    linked: bool,                     // backend is in the manager's active list
    reschedule: bool,                 // FileManager::Reschedule
    ignored: bool                     // history: a notification of this backend was ignored
  )

  datatype State = State(
    config: Config,
    flushTime: nat,
    queued: int,                      // QueuedBytes
    lock: Lock,
    queue: Queue,
    held: seq<(Tid, Buf)>,            // buffers of Flush callers between swap and enqueue
    appender: Appender,
    flushers: map<Tid, Flusher>,
    worker: Worker,
    manager: Manager,
    epoch: nat,                       // number of notify_all calls on Done
    accepted: seq<Msg>,               // appends counted in QueuedBytes so far
    finished: seq<Msg>                // appends handed to the writer, written or failed
  )

  function SumMsgs(msgs: seq<Msg>): nat {
    if msgs == [] then 0 else msgs[0].size + SumMsgs(msgs[1..])
  }

  function Flat(bufs: seq<Buf>): seq<Msg> {
    if bufs == [] then [] else bufs[0].msgs + Flat(bufs[1..])
  }

  function FlatHeld(held: seq<(Tid, Buf)>): seq<Msg> {
    if held == [] then [] else held[0].1.msgs + FlatHeld(held[1..])
  }

  predicate Init(s: State) {
    && s.flushTime == 0 && s.queued == 0 && s.lock == Free
    && s.queue == Queue(Buf([], 0), 0, false, []) && s.held == [] && s.appender == NoAppender
    && s.flushers == map[] && s.worker == MIdleWait && s.manager == Manager(false, false, false, false)
    && s.epoch == 0 && s.accepted == [] && s.finished == []
  }

  /** The first-write time an appender derives from a loaded FlushTime. */
  function FirstWriteTime(flushTime: nat, flushAfter: nat, now: nat): nat {
    if flushTime != 0 && flushTime != RIGHT_NOW && flushTime > flushAfter then flushTime - flushAfter else now
  }

  predicate MgrLocked(w: Worker) {
    w.MHead?
  }

  /** One step of RequestFlush: `r` becomes `next` (None: returned) and FlushTime becomes `ft`. */
  datatype ReqResult = ReqResult(next: Request, done: bool, flushTime: nat)

  function RequestStep(r: Request, flushTime: nat): ReqResult
    requires !r.ReqNotify?
  {
    match r
    case ReqLoad(when) => ReqResult(ReqLoop(when, flushTime), false, flushTime)
    case ReqLoop(when, seen) =>
      if seen != 0 && (seen == RIGHT_NOW || seen <= when) then ReqResult(r, true, flushTime)
      else if flushTime == seen then ReqResult(ReqNotify(when), false, when)
      else ReqResult(ReqLoop(when, flushTime), false, flushTime)
  }

  datatype Action =
    // appender
    | ABegin(m: Msg) | AAddBackend | ASetRegistered(appends: bool)
    | AFirstLoad(now: nat) | AAppend(replaced: bool) | ASetFlag | APutReady
    | ARaise | AChoose(pressure: bool, now: nat) | ASetMirror | ARequestStep | ANotify(resched: bool)
    // Flush caller
    | FBegin(t: Tid) | FTake(t: Tid, taken: bool) | FDoSwap(t: Tid) | FDoClear(t: Tid)
    | FDoEnqueue(t: Tid, at: nat) | FRequestStep(t: Tid) | FNotify(t: Tid, resched: bool)
    | FTest(t: Tid) | FWake(t: Tid)
    // management thread
    | MPoke | MWake | MTimeout | MOther | MOtherDone | MDropStale | MRun(early: bool) | MSleep(timed: bool) | MReturn
    // worker run
    | WBegin(shutdown: bool) | WTakeReady | WEmptyTest | WEmptySignal | WGetBuffer(taken: bool) | WDoWrite
    | WLower | WTest | WSignal | WDoSwap | WDoClear | WDoEnqueue
    // UpdateFlushTimeAfterWork
    | USeeReady | USeeTime | USeeFlag | USeeFlush | UExchange | USeeReadyAgain | USeeTimeAgain
    | USeeHasReady | USeeFlagAgain | UWrite(now: nat)

  /** FileManager::Notify. A backend that is not registered is ignored; with no manager at all it is
      not registered either. While the manager waits idle its list is empty, so the head test or the
      earliest-time test always asks for a reschedule. */
  function Notified(m: Manager, resched: bool): Manager {
    if m.registered then m.(linked := true, reschedule := m.reschedule || resched) else m.(ignored := true)
  }

  /** Display or AppendString: taking the data lock, and RegisterAsync. A record may register the
      backend and then add nothing, when it is empty or a rotation fails. */
  predicate NextRegister(s: State, a: Action, s': State) {
    match a
    case ABegin(m) =>
      s.lock == Free && s' == s.(lock := HeldByAppender, appender := if s.manager.registered then ALoad(m) else AAdd(m))
    case AAddBackend =>
      s.appender.AAdd? && !MgrLocked(s.worker) && s' == s.(appender := AStore(s.appender.m))
    case ASetRegistered(appends) =>
      s.appender.AStore? &&
      (if appends then s' == s.(manager := s.manager.(registered := true), appender := ALoad(s.appender.m))
       else s' == s.(manager := s.manager.(registered := true), appender := NoAppender, lock := Free))
    case _ => false
  }

  /** AppendOutputData: entering BufferQueue::Append and placing the bytes. */
  predicate NextAppend(s: State, a: Action, s': State) {
    match a
    case AFirstLoad(now) =>
      s.appender.ALoad? && now > RIGHT_NOW
      && s' == s.(appender := AQueue(s.appender.m, FirstWriteTime(s.flushTime, s.config.flushAfter, now)))
    case AAppend(replaced) =>
      s.appender.AQueue? &&
      var m := s.appender.m;
      var first := s.appender.first;
      if SumMsgs(s.queue.current.msgs) + m.size <= s.config.capacity then
        if s.queue.current.msgs == [] then
          s' == s.(queue := s.queue.(current := Buf([], first), timeMirror := first), appender := AFlag(m))
        else
          s' == s.(queue := s.queue.(current := s.queue.current.(msgs := s.queue.current.msgs + [m])),
                   appender := ACount(m, false))
      else if !replaced || m.size > s.config.capacity then
        s' == s.(appender := NoAppender, lock := Free)                       // dropped
      else
        s' == s.(queue := s.queue.(current := Buf([m], first), timeMirror := first),
                 appender := ASwapFlag(m, s.queue.current))
    case _ => false
  }

  /** The rest of BufferQueue::Append, then the count of the bytes. */
  predicate NextComplete(s: State, a: Action, s': State) {
    match a
    case ASetFlag =>
      (s.appender.AFlag?
       && s' == s.(queue := s.queue.(flagMirror := true,
                                     current := s.queue.current.(msgs := s.queue.current.msgs + [s.appender.m])),
                   appender := ACount(s.appender.m, true)))
      || (s.appender.ASwapFlag?
          && s' == s.(queue := s.queue.(flagMirror := true), appender := AEnqueue(s.appender.m, s.appender.full)))
    case APutReady =>
      s.appender.AEnqueue?
      && s' == s.(queue := s.queue.(ready := if s.appender.full.msgs == [] then s.queue.ready
                                         else s.queue.ready + [s.appender.full]),
                  appender := ACount(s.appender.m, true))
    case ARaise =>
      s.appender.ACount?
      && s' == s.(queued := s.queued + s.appender.m.size, accepted := s.accepted + [s.appender.m],
                  appender := ADecide(s.appender.m, s.appender.firstData))
    case _ => false
  }

  /** AppendOutputData: deciding whether to ask for a flush. */
  predicate NextDecide(s: State, a: Action, s': State) {
    match a
    case AChoose(pressure, now) =>
      // `pressure` stands for usedBuffers >= FLUSH_PRESSURE_BUFFERS || queued >= QueueSizeLimit
      s.appender.ADecide? && now > RIGHT_NOW &&
      var when := if pressure then (if s.flushTime != RIGHT_NOW then RIGHT_NOW else 0)
                  else if s.appender.firstData && s.flushTime == 0 then now + s.config.flushAfter else 0;
      if s.appender.firstData then s' == s.(appender := AMirror(when))
      else if when != 0 then s' == s.(appender := ARequest(ReqLoad(when)))
      else s' == s.(appender := NoAppender, lock := Free)
    case ASetMirror =>
      s.appender.AMirror? &&
      var first := if s.queue.current.msgs == [] then s.queue.timeMirror else s.queue.current.first;
      var t := s.(queue := s.queue.(timeMirror := first));
      if s.appender.when != 0 then s' == t.(appender := ARequest(ReqLoad(s.appender.when)))
      else s' == t.(appender := NoAppender, lock := Free)
    case _ => false
  }

  /** AppendOutputData: its RequestFlush. */
  predicate NextRequest(s: State, a: Action, s': State) {
    match a
    case ARequestStep =>
      s.appender.ARequest? && !s.appender.req.ReqNotify? &&
      var r := RequestStep(s.appender.req, s.flushTime);
      if r.done then s' == s.(appender := NoAppender, lock := Free)
      else s' == s.(flushTime := r.flushTime, appender := ARequest(r.next))
    case ANotify(resched) =>
      s.appender.ARequest? && s.appender.req.ReqNotify? && !MgrLocked(s.worker) && (s.worker.MIdleWait? ==> resched)
      && s' == s.(manager := Notified(s.manager, resched), appender := NoAppender, lock := Free)
    case _ => false
  }

  /** Flush: the publishing loop. */
  predicate NextPublish(s: State, a: Action, s': State) {
    match a
    case FBegin(t) =>
      (t in s.flushers ==> s.flushers[t].FDone?) && s' == s.(flushers := s.flushers[t := FPublish])
    case FTake(t, taken) =>
      t in s.flushers && s.flushers[t].FPublish?
      && s' == s.(flushers := s.flushers[t := if taken then FSwap else FRequest(ReqLoad(RIGHT_NOW))])
    case FDoSwap(t) =>
      t in s.flushers && s.flushers[t].FSwap? && s.lock == Free &&
      (if s.queue.current.msgs == [] then
         s' == s.(flushers := s.flushers[t := FRequest(ReqLoad(RIGHT_NOW))])
       else
         s' == s.(lock := HeldByFlusher(t), held := s.held + [(t, s.queue.current)],
                  queue := s.queue.(current := Buf([], 0), timeMirror := 0), flushers := s.flushers[t := FClear]))
    case _ => false
  }

  /** Flush: handing the published buffer to the ready list. */
  predicate NextHandOver(s: State, a: Action, s': State) {
    match a
    case FDoClear(t) =>
      t in s.flushers && s.flushers[t].FClear?
      && s' == s.(lock := Free, queue := s.queue.(flagMirror := false), flushers := s.flushers[t := FEnqueue])
    case FDoEnqueue(t, at) =>
      t in s.flushers && s.flushers[t].FEnqueue? && at < |s.held| && s.held[at].0 == t
      && s' == s.(queue := s.queue.(ready := s.queue.ready + [s.held[at].1]), held := s.held[..at] + s.held[at + 1..],
                  flushers := s.flushers[t := FPublish])
    case _ => false
  }

  /** Flush: the request and the wait. */
  predicate NextWait(s: State, a: Action, s': State) {
    match a
    case FRequestStep(t) =>
      t in s.flushers && s.flushers[t].FRequest? && !s.flushers[t].req.ReqNotify? &&
      var r := RequestStep(s.flushers[t].req, s.flushTime);
      s' == s.(flushTime := r.flushTime,
               flushers := s.flushers[t := if r.done then FWait else FRequest(r.next)])
    case FNotify(t, resched) =>
      t in s.flushers && s.flushers[t].FRequest? && s.flushers[t].req.ReqNotify? && !MgrLocked(s.worker)
      && (s.worker.MIdleWait? ==> resched)
      && s' == s.(manager := Notified(s.manager, resched), flushers := s.flushers[t := FWait])
    case FTest(t) =>
      t in s.flushers && s.flushers[t].FWait?
      && s' == s.(flushers := s.flushers[t := if s.queued == 0 then FDone else FSleep(s.epoch)])
    case FWake(t) =>
      // a notification after falling asleep, or a spurious wake-up
      t in s.flushers && s.flushers[t].FSleep? && s' == s.(flushers := s.flushers[t := FWait])
    case _ => false
  }

  /** FileManager::ManagementThread, for this backend. */
  predicate NextManager(s: State, a: Action, s': State) {
    match a
    case MPoke =>
      // another backend notifies the manager
      !MgrLocked(s.worker) && s' == s.(manager := s.manager.(reschedule := true))
    case MWake =>
      (s.worker.MIdleWait? || s.worker.MTimedWait?) && s.manager.reschedule
      && s' == s.(worker := MHead, manager := s.manager.(reschedule := false))
    case MTimeout =>
      s.worker.MTimedWait? && s' == s.(worker := MHead, manager := s.manager.(reschedule := false))
    case MOtherDone =>
      s.worker.MElsewhere? && s' == s.(worker := MHead)
    case MOther =>
      s.worker.MHead? && s' == s.(worker := MElsewhere)
    case MDropStale =>
      s.worker.MHead? && s.manager.linked && s.flushTime == 0 && s' == s.(manager := s.manager.(linked := false))
    case MRun(early) =>
      s.worker.MHead? && s.manager.linked && s.flushTime != 0
      && s' == s.(manager := s.manager.(linked := false), worker := WStart,
                  flushTime := if early then RIGHT_NOW else s.flushTime)
    case MSleep(timed) =>
      s.worker.MHead? && (!timed ==> !s.manager.linked) &&
      (if s.manager.reschedule then s' == s.(manager := s.manager.(reschedule := false))
       else s' == s.(worker := if timed then MTimedWait else MIdleWait))
    case MReturn =>
      s.worker.MBack? && s' == s.(manager := s.manager.(linked := s.flushTime != 0), worker := MHead)
    case _ => false
  }

  function AfterRound(i: nat): Worker {
    if i + 1 < MAX_WRITE_LOOPS then WTake(i + 1, false) else UReady
  }

  /** WriteReadyData returned false: a forced run publishes the current buffer, any other stops. */
  function AfterEmpty(i: nat, force: bool): Worker {
    if force then WPublish(i) else UReady
  }

  /** WorkerFunc and WriteReadyData. */
  predicate NextWriter(s: State, a: Action, s': State) {
    match a
    case WBegin(shutdown) =>
      s.worker.WStart? && s' == s.(worker := WTake(0, shutdown || s.flushTime == RIGHT_NOW))
    case WTakeReady =>
      s.worker.WTake? &&
      (if s.queue.ready == [] then s' == s.(worker := WEmpty(s.worker.i, s.worker.force))
       else s' == s.(queue := s.queue.(ready := []), worker := WWrite(s.worker.i, s.queue.ready)))
    case WEmptyTest =>
      s.worker.WEmpty?
      && s' == s.(worker := if s.queued == 0 then WEmptyNotify(s.worker.i, s.worker.force)
                            else AfterEmpty(s.worker.i, s.worker.force))
    case WEmptySignal =>
      s.worker.WEmptyNotify?
      && s' == s.(epoch := s.epoch + 1, worker := AfterEmpty(s.worker.i, s.worker.force))
    case WDoWrite =>
      s.worker.WWrite?
      && s' == s.(finished := s.finished + Flat(s.worker.data), worker := WSubtract(s.worker.i, s.worker.data))
    case WLower =>
      s.worker.WSubtract?
      && s' == s.(queued := s.queued - SumMsgs(Flat(s.worker.data)), worker := WCheck(s.worker.i))
    case WTest =>
      s.worker.WCheck?
      && s' == s.(worker := if s.queued == 0 then WNotify(s.worker.i) else AfterRound(s.worker.i))
    case WSignal =>
      s.worker.WNotify? && s' == s.(epoch := s.epoch + 1, worker := AfterRound(s.worker.i))
    case _ => false
  }

  /** WorkerFunc: PublishCurrent in a forced run. */
  predicate NextForced(s: State, a: Action, s': State) {
    match a
    case WGetBuffer(taken) =>
      s.worker.WPublish? && s' == s.(worker := if taken then WSwap(s.worker.i) else UReady)
    case WDoSwap =>
      s.worker.WSwap? && s.lock == Free &&
      (if s.queue.current.msgs == [] then s' == s.(worker := UReady)
       else s' == s.(lock := HeldByWorker, queue := s.queue.(current := Buf([], 0), timeMirror := 0),
                     worker := WClear(s.worker.i, s.queue.current)))
    case WDoClear =>
      s.worker.WClear?
      && s' == s.(lock := Free, queue := s.queue.(flagMirror := false), worker := WEnqueue(s.worker.i, s.worker.full))
    case WDoEnqueue =>
      s.worker.WEnqueue?
      && s' == s.(queue := s.queue.(ready := s.queue.ready + [s.worker.full]), worker := AfterRound(s.worker.i))
    case _ => false
  }

  function ReadyTime(s: State): nat {
    if s.queue.ready == [] then 0 else s.queue.ready[0].first
  }

  function Oldest(ready: nat, current: nat): nat {
    if ready == 0 || (current != 0 && current < ready) then current else ready
  }

  /** UpdateFlushTimeAfterWork: the first look, and clearing FlushTime. */
  predicate NextLook(s: State, a: Action, s': State) {
    match a
    case USeeReady => s.worker.UReady? && s' == s.(worker := UTime(ReadyTime(s)))
    case USeeTime =>
      s.worker.UTime? &&
      var oldest := Oldest(s.worker.ready, s.queue.timeMirror);
      s' == s.(worker := if oldest != 0 then UStore(oldest) else UFlag)
    case USeeFlag => s.worker.UFlag? && s' == s.(worker := if s.queue.flagMirror then MBack else ULoad)
    case USeeFlush => s.worker.ULoad? && s' == s.(worker := UClear(s.flushTime))
    case UExchange =>
      s.worker.UClear? &&
      (if s.worker.expected == 0 then s' == s.(worker := UReadyAgain)
       else if s.flushTime == s.worker.expected then s' == s.(flushTime := 0, worker := UReadyAgain)
       else s' == s.(worker := UClear(s.flushTime)))
    case _ => false
  }

  /** UpdateFlushTimeAfterWork: the second look, and the stores. */
  predicate NextRecheck(s: State, a: Action, s': State) {
    match a
    case USeeReadyAgain => s.worker.UReadyAgain? && s' == s.(worker := UTimeAgain(ReadyTime(s)))
    case USeeTimeAgain =>
      s.worker.UTimeAgain? &&
      var oldest := Oldest(s.worker.ready, s.queue.timeMirror);
      s' == s.(worker := if oldest != 0 then UStore(oldest) else UHasReady)
    case USeeHasReady =>
      s.worker.UHasReady? && s' == s.(worker := if s.queue.ready != [] then UStoreNow else UFlagAgain)
    case USeeFlagAgain =>
      s.worker.UFlagAgain? && s' == s.(worker := if s.queue.flagMirror then UStoreLater else MBack)
    case UWrite(now) =>
      now > RIGHT_NOW &&
      ((s.worker.UStore?
        && s' == s.(worker := MBack,
                    flushTime := if s.worker.oldest + s.config.flushAfter <= now then RIGHT_NOW
                                 else s.worker.oldest + s.config.flushAfter))
       || (s.worker.UStoreNow? && s' == s.(worker := MBack, flushTime := RIGHT_NOW))
       || (s.worker.UStoreLater? && s' == s.(worker := MBack, flushTime := now + s.config.flushAfter)))
    case _ => false
  }

  /** A step of the thread that holds a record. */
  predicate NextAppender(s: State, a: Action, s': State) {
    || NextRegister(s, a, s') || NextAppend(s, a, s') || NextComplete(s, a, s')
    || NextDecide(s, a, s') || NextRequest(s, a, s')
  }

  /** A step of a Flush caller. */
  predicate NextFlusher(s: State, a: Action, s': State) {
    NextPublish(s, a, s') || NextHandOver(s, a, s') || NextWait(s, a, s')
  }

  /** A step of the management thread that publishes nothing. */
  predicate NextWorker(s: State, a: Action, s': State) {
    NextManager(s, a, s') || NextWriter(s, a, s') || NextLook(s, a, s') || NextRecheck(s, a, s')
  }

  predicate Next(s: State, a: Action, s': State) {
    NextAppender(s, a, s') || NextFlusher(s, a, s') || NextWorker(s, a, s') || NextForced(s, a, s')
  }

  /** A run: an initial state followed by any interleaving of steps. */
  ghost predicate IsRun(states: seq<State>, actions: seq<Action>) {
    && |states| == |actions| + 1 && Init(states[0])
    && forall i :: 0 <= i < |actions| ==> Next(states[i], actions[i], states[i + 1])
  }
}
