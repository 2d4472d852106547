/** Log statistics of one call site under concurrent use: any number of recording threads (Enter,
    second load of the active collector, Record, Leave) against Start, Stop and Reset, which take the
    collector away, wait for the recorders to leave, and only then touch its counters. Record looks
    for its channel's slot without the lock and makes a new one under it; when the slots are taken it
    adds to the overflow counter. */
module StatisticsProtocol {
  import opened Counting
  import opened Wrappers

  const CHANNEL_SLOT_COUNT: nat := 4

  type Tid = nat

  type Channel = nat

  datatype Message = Message(channel: Channel, bytes: nat)

  datatype Counter = Counter(records: nat, bytes: nat, maximum: nat)

  /** A thread inside DoLog's statistics section. Counter 0 is the overflow, counter i + 1 slot i. */
  datatype Recorder =
    | RLoad(m: Message)                          // first load of ActiveLogStatistics
    | REnter(m: Message)                         // saw a collector; about to enter it
    | RRecheck(m: Message)                       // entered; second load
    | RLook(m: Message, i: nat)                  // same collector; Record looks at slot i
    | RCreate(m: Message)                        // no slot seen; about to lock in GetOrCreateChannel
    | RRecords(m: Message, at: nat)              // Records of counter `at`
    | RBytes(m: Message, at: nat)                // MessageBytes
    | RMaxLoad(m: Message, at: nat)              // UpdateMaximum: load
    | RMaxSwap(m: Message, at: nat, seen: nat)   // UpdateMaximum: compare, then compare-exchange
    | RLeave
    | RDone

  datatype Command = Start | Stop | Reset

  /** The thread that holds LogStatisticsControlLock. A reset clears the overflow counter, then the
      slots in order. */
  datatype Control =
    | CIdle
    | CWait(cmd: Command)                        // collector taken away; waits for InFlight == 0
    | CWork(cmd: Command, previous: bool)        // idle (or nothing was active)
    | CZeroRecords(at: nat, restore: bool)
    | CZeroBytes(at: nat, restore: bool)
    | CZeroMax(at: nat, restore: bool)
    | CRestore(restore: bool)                    // about to store the collector again, or not

  datatype State = State(
    active: bool,                // ActiveLogStatistics is the collector (else null)
    created: bool,               // LogStatistics exists
    inFlight: int,
    owners: seq<Option<Channel>>,
    counters: seq<Counter>,
    recorders: map<Tid, Recorder>,
    control: Control,
    log: seq<Message>            // messages whose Record has reached a counter since the last reset
  )

  ghost predicate Init(s: State) {
    && !s.active && !s.created && s.inFlight == 0
    && s.owners == [None, None, None, None] && s.counters == seq(CHANNEL_SLOT_COUNT + 1, _ => Counter(0, 0, 0))
    && s.recorders == map[] && s.control == CIdle && s.log == []
  }

  // ---- slots ----

  /** The counter of a channel: behind the first slot it owns, or the overflow. */
  function Place(owners: seq<Option<Channel>>, c: Channel): (p: nat)
    ensures p <= |owners|
    ensures p > 0 ==> owners[p - 1] == Some(c)
    ensures p == 0 ==> Some(c) !in owners
  {
    if owners == [] then 0
    else
      assert owners == owners[..|owners| - 1] + [owners[|owners| - 1]];
      var p := Place(owners[..|owners| - 1], c);
      if p > 0 then p else if owners[|owners| - 1] == Some(c) then |owners| else 0
  }

  function FirstEmpty(owners: seq<Option<Channel>>, i: nat := 0): (e: nat)
    requires i <= |owners|
    ensures i <= e <= |owners| && (e < |owners| ==> owners[e].None?)
    ensures forall j :: i <= j < e ==> owners[j].Some?
    decreases |owners| - i
  {
    if i == |owners| || owners[i].None? then i else FirstEmpty(owners, i + 1)
  }

  /** GetOrCreateChannel under the collector's lock: the slots afterwards. */
  function WithChannel(owners: seq<Option<Channel>>, c: Channel): seq<Option<Channel>> {
    var e := FirstEmpty(owners);
    if Place(owners, c) > 0 || e == |owners| then owners else owners[e := Some(c)]
  }

  predicate Full(owners: seq<Option<Channel>>) {
    forall i :: 0 <= i < |owners| ==> owners[i].Some?
  }

  /** Channels fill the slots from the front, each channel once. */
  predicate SlotsInv(owners: seq<Option<Channel>>) {
    && |owners| == CHANNEL_SLOT_COUNT
    && forall i, j :: 0 <= i < j < |owners| && owners[j].Some? ==> owners[i].Some? && owners[i] != owners[j]
  }

  // ---- the protocol ----

  datatype Action = Begin(t: Tid, m: Message) | Record(t: Tid) | Issue(cmd: Command) | SeeIdle | Work

  predicate Entering(s: State, t: Tid, r: Recorder, s': State) {
    match r
    case RLoad(m) => s' == s.(recorders := s.recorders[t := if s.active then REnter(m) else RDone])
    case REnter(m) => s' == s.(recorders := s.recorders[t := RRecheck(m)], inFlight := s.inFlight + 1)
    case RRecheck(m) => s' == s.(recorders := s.recorders[t := if s.active then RLook(m, 0) else RLeave])
    case RLeave => s' == s.(recorders := s.recorders[t := RDone], inFlight := s.inFlight - 1)
    case _ => false
  }

  predicate Looking(s: State, t: Tid, r: Recorder, s': State) {
    match r
    case RLook(m, i) =>
      s' == s.(recorders := s.recorders[t :=
        if i >= |s.owners| || s.owners[i].None? then RCreate(m)
        else if s.owners[i] == Some(m.channel) then RRecords(m, i + 1)
        else RLook(m, i + 1)])
    case RCreate(m) =>
      var owners := WithChannel(s.owners, m.channel);
      s' == s.(owners := owners, recorders := s.recorders[t := RRecords(m, Place(owners, m.channel))])
    case _ => false
  }

  predicate Adding(s: State, t: Tid, r: Recorder, s': State) {
    match r
    case RRecords(m, at) =>
      at < |s.counters| &&
      var c := s.counters[at];
      s' == s.(counters := s.counters[at := c.(records := c.records + 1)], log := s.log + [m],
               recorders := s.recorders[t := RBytes(m, at)])
    case RBytes(m, at) =>
      at < |s.counters| &&
      var c := s.counters[at];
      s' == s.(counters := s.counters[at := c.(bytes := c.bytes + m.bytes)],
               recorders := s.recorders[t := RMaxLoad(m, at)])
    case RMaxLoad(m, at) =>
      at < |s.counters| && s' == s.(recorders := s.recorders[t := RMaxSwap(m, at, s.counters[at].maximum)])
    case RMaxSwap(m, at, seen) =>
      at < |s.counters| &&
      var c := s.counters[at];
      if seen >= m.bytes then s' == s.(recorders := s.recorders[t := RLeave])
      else if c.maximum == seen then
        s' == s.(counters := s.counters[at := c.(maximum := m.bytes)], recorders := s.recorders[t := RLeave])
      else s' == s.(recorders := s.recorders[t := RMaxSwap(m, at, c.maximum)])
    case _ => false
  }

  predicate NextRecorder(s: State, a: Action, s': State) {
    match a
    case Begin(t, m) =>
      (t in s.recorders ==> s.recorders[t].RDone?) && s' == s.(recorders := s.recorders[t := RLoad(m)])
    case Record(t) =>
      t in s.recorders
      && (Entering(s, t, s.recorders[t], s') || Looking(s, t, s.recorders[t], s') || Adding(s, t, s.recorders[t], s'))
    case _ => false
  }

  predicate NextControl(s: State, a: Action, s': State) {
    match a
    case Issue(cmd) =>
      s.control.CIdle?
      && s' == s.(active := false, control := if s.active then CWait(cmd)
                                              else if cmd.Stop? then CIdle else CWork(cmd, false))
    case SeeIdle =>
      s.control.CWait? && s.inFlight == 0 && s' == s.(control := CWork(s.control.cmd, true))
    case Work =>
      (match s.control
       case CWork(Start, _) => s' == s.(created := true, control := CZeroRecords(0, true), log := [])
       case CWork(Stop, _) => s' == s.(control := CIdle)
       case CWork(Reset, previous) =>
         if s.created then s' == s.(control := CZeroRecords(0, previous), log := [])
         else s' == s.(control := CRestore(previous))
       case CRestore(restore) => s' == s.(active := restore, control := CIdle)
       case _ => Zeroing(s, s.control, s'))
    case _ => false
  }

  predicate Zeroing(s: State, c: Control, s': State) {
    match c
    case CZeroRecords(at, restore) =>
      if at >= |s.counters| then s' == s.(control := CRestore(restore))
      else s' == s.(counters := s.counters[at := s.counters[at].(records := 0)], control := CZeroBytes(at, restore))
    case CZeroBytes(at, restore) =>
      at < |s.counters|
      && s' == s.(counters := s.counters[at := s.counters[at].(bytes := 0)], control := CZeroMax(at, restore))
    case CZeroMax(at, restore) =>
      at < |s.counters|
      && s' == s.(counters := s.counters[at := s.counters[at].(maximum := 0)], control := CZeroRecords(at + 1, restore))
    case _ => false
  }

  predicate Next(s: State, a: Action, s': State) {
    NextRecorder(s, a, s') || NextControl(s, a, s')
  }

  ghost predicate IsRun(states: seq<State>, actions: seq<Action>) {
    && |states| == |actions| + 1 && Init(states[0])
    && forall i :: 0 <= i < |actions| ==> Next(states[i], actions[i], states[i + 1])
  }

  // ---- quiescence ----

  /** 1 while the thread has entered the collector. */
  function Entered(r: Recorder): nat {
    if r.RLoad? || r.REnter? || r.RDone? then 0 else 1
  }

  /** Record has a counter and is adding to it. */
  predicate AddsTo(r: Recorder) {
    r.RRecords? || r.RBytes? || r.RMaxLoad? || r.RMaxSwap?
  }

  /** Record is in progress. */
  predicate Recording(r: Recorder) {
    r.RLook? || r.RCreate? || AddsTo(r)
  }

  ghost predicate SomeRecording(s: State) {
    exists t <- s.recorders :: Recording(s.recorders[t])
  }

  predicate Resetting(c: Control) {
    c.CZeroRecords? || c.CZeroBytes? || c.CZeroMax?
  }

  /** The control thread works on a collector, or will store one. */
  predicate HoldsCollector(c: Control) {
    c.CWait? || Resetting(c) || (c.CWork? && c.previous) || (c.CRestore? && c.restore)
  }

  ghost predicate QuietInv(s: State) {
    && s.inFlight == Total(s.recorders, Entered)
    && (s.active ==> s.control.CIdle?)
    && (SomeRecording(s) ==> s.active || s.control.CWait?)
    && (s.active || HoldsCollector(s.control) || s.log != [] ==> s.created)
  }

  lemma RecorderFrame(s: State, a: Action, s': State)
    requires NextRecorder(s, a, s')
    ensures a.t in s'.recorders && s'.recorders == s.recorders[a.t := s'.recorders[a.t]]
    ensures s'.active == s.active && s'.created == s.created && s'.control == s.control
    ensures a.Record? ==> a.t in s.recorders
  {
  }

  /** Only a thread that has entered may begin to record, and only while it sees the collector. */
  lemma RecorderMoves(s: State, a: Action, s': State)
    requires NextRecorder(s, a, s')
    ensures var before, after := if a.t in s.recorders then s.recorders[a.t] else RDone, s'.recorders[a.t];
      && s'.inFlight == s.inFlight - Entered(before) + Entered(after)
      && (Recording(after) ==> s.active || Recording(before))
  {
  }

  lemma QuietKeptByRecorder(s: State, a: Action, s': State)
    requires QuietInv(s) && NextRecorder(s, a, s')
    ensures QuietInv(s')
  {
    RecorderFrame(s, a, s');
    RecorderMoves(s, a, s');
    TotalAfterMove(s.recorders, Entered, a.t, s'.recorders[a.t]);
    if SomeRecording(s') && !SomeRecording(s) {
      var t :| t in s'.recorders && Recording(s'.recorders[t]);
      assert t == a.t;
    }
  }

  lemma QuietKeptByControl(s: State, a: Action, s': State)
    requires QuietInv(s) && NextControl(s, a, s')
    ensures QuietInv(s')
  {
    if a.SeeIdle? {
      TotalZero(s.recorders, Entered);
    }
  }

  // ---- every message has one counter ----

  /** A message that found no slot, and a Record that is to add to the overflow, know that all slots
      belong to others; slots are never given up, so this stays. */
  ghost predicate PlaceInv(s: State) {
    && SlotsInv(s.owners) && |s.counters| == CHANNEL_SLOT_COUNT + 1
    && (forall t <- s.recorders :: AddsTo(s.recorders[t]) ==>
          && s.recorders[t].at == Place(s.owners, s.recorders[t].m.channel)
          && Settled(s.owners, s.recorders[t].m.channel))
    && (forall m <- s.log :: Settled(s.owners, m.channel))
  }

  predicate Settled(owners: seq<Option<Channel>>, c: Channel) {
    Place(owners, c) > 0 || Full(owners)
  }

  /** A channel that owns a slot is placed there. */
  lemma {:induction false} PlaceIsUnique(owners: seq<Option<Channel>>, c: Channel, i: nat)
    requires i < |owners| && owners[i] == Some(c)
    requires forall j :: 0 <= j < |owners| && j != i ==> owners[j] != Some(c)
    ensures Place(owners, c) == i + 1
  {
    assert Some(c) in owners;
    assert owners[Place(owners, c) - 1] == Some(c);
  }

  lemma CreatedSlots(owners: seq<Option<Channel>>, c: Channel)
    requires SlotsInv(owners)
    ensures SlotsInv(WithChannel(owners, c)) && Settled(WithChannel(owners, c), c)
    ensures forall i :: 0 <= i < |owners| && owners[i].Some? ==> WithChannel(owners, c)[i] == owners[i]
  {
    var after := WithChannel(owners, c);
    var e := FirstEmpty(owners);
    if after != owners {
      assert after[e] == Some(c);
      assert Some(c) in after;
      assert forall i :: 0 <= i < |owners| && i != e ==> after[i] == owners[i] && owners[i] != Some(c);
    }
  }

  /** A settled channel keeps its place. */
  lemma SettledStays(owners: seq<Option<Channel>>, c: Channel, d: Channel)
    requires SlotsInv(owners) && Settled(owners, d)
    ensures Place(WithChannel(owners, c), d) == Place(owners, d) && Settled(WithChannel(owners, c), d)
  {
    var after, p := WithChannel(owners, c), Place(owners, d);
    if after != owners {
      CreatedSlots(owners, c);
      PlaceIsUnique(after, d, p - 1);
    }
  }

  lemma PlaceKeptByLooking(s: State, t: Tid, s': State)
    requires PlaceInv(s) && t in s.recorders && Looking(s, t, s.recorders[t], s')
    ensures PlaceInv(s')
    ensures forall m <- s.log :: Place(s'.owners, m.channel) == Place(s.owners, m.channel)
  {
    var r := s.recorders[t];
    if r.RCreate? {
      CreatedSlots(s.owners, r.m.channel);
      forall c | Settled(s.owners, c)
        ensures Place(s'.owners, c) == Place(s.owners, c) && Settled(s'.owners, c)
      {
        SettledStays(s.owners, r.m.channel, c);
      }
    } else if r.i < |s.owners| && s.owners[r.i] == Some(r.m.channel) {
      PlaceIsUnique(s.owners, r.m.channel, r.i);
    }
  }

  lemma PlaceKeptByAdding(s: State, t: Tid, s': State)
    requires PlaceInv(s) && t in s.recorders && Adding(s, t, s.recorders[t], s')
    ensures PlaceInv(s') && s'.owners == s.owners
  {
  }

  lemma PlaceKeptByMove(s: State, t: Tid, s': State)
    requires PlaceInv(s) && t in s'.recorders && s'.recorders == s.recorders[t := s'.recorders[t]]
    requires s'.owners == s.owners && s'.log == s.log && s'.counters == s.counters && !AddsTo(s'.recorders[t])
    ensures PlaceInv(s')
  {
  }

  lemma EnteringFrame(s: State, a: Action, s': State)
    requires NextRecorder(s, a, s')
    requires a.Begin? || Entering(s, a.t, s.recorders[a.t], s')
    ensures s'.owners == s.owners && s'.log == s.log && s'.counters == s.counters && !AddsTo(s'.recorders[a.t])
  {
  }

  lemma PlaceKeptByRecorder(s: State, a: Action, s': State)
    requires PlaceInv(s) && NextRecorder(s, a, s')
    ensures PlaceInv(s')
    ensures forall m <- s.log :: Place(s'.owners, m.channel) == Place(s.owners, m.channel)
  {
    if a.Begin? || Entering(s, a.t, s.recorders[a.t], s') {
      RecorderFrame(s, a, s');
      EnteringFrame(s, a, s');
      PlaceKeptByMove(s, a.t, s');
    } else if Looking(s, a.t, s.recorders[a.t], s') {
      PlaceKeptByLooking(s, a.t, s');
    } else {
      PlaceKeptByAdding(s, a.t, s');
    }
  }

  lemma PlaceKeptByControl(s: State, a: Action, s': State)
    requires PlaceInv(s) && NextControl(s, a, s')
    ensures PlaceInv(s')
  {
  }

  // ---- exact counters ----

  /** The bytes of the messages that belong to counter `at`. */
  function LogOf(owners: seq<Option<Channel>>, log: seq<Message>, at: nat): seq<nat> {
    if log == [] then []
    else
      var front, m := LogOf(owners, log[..|log| - 1], at), log[|log| - 1];
      if Place(owners, m.channel) == at then front + [m.bytes] else front
  }

  function Sum(log: seq<nat>): nat {
    if log == [] then 0 else Sum(log[..|log| - 1]) + log[|log| - 1]
  }

  lemma {:induction false} LogOfStays(before: seq<Option<Channel>>, after: seq<Option<Channel>>, log: seq<Message>,
                                      at: nat)
    requires forall m <- log :: Place(after, m.channel) == Place(before, m.channel)
    ensures LogOf(after, log, at) == LogOf(before, log, at)
  {
    if log != [] {
      LogOfStays(before, after, log[..|log| - 1], at);
    }
  }

  lemma LogOfGrows(owners: seq<Option<Channel>>, log: seq<Message>, m: Message, at: nat)
    ensures LogOf(owners, log + [m], at)
         == if Place(owners, m.channel) == at then LogOf(owners, log, at) + [m.bytes] else LogOf(owners, log, at)
  {
    assert (log + [m])[..|log|] == log;
  }

  lemma SumGrows(log: seq<nat>, n: nat)
    ensures Sum(log + [n]) == Sum(log) + n
  {
    assert (log + [n])[..|log|] == log;
  }

  /** The bytes a Record in progress still has to add to counter `at`. */
  function BytesOwed(r: Recorder, at: nat): nat {
    if r.RBytes? && r.at == at then r.m.bytes else 0
  }

  ghost function OwedTo(at: nat): Recorder -> nat {
    r => BytesOwed(r, at)
  }

  /** The thread still has to see to it that the maximum is at least its message. */
  predicate MaxOwed(r: Recorder, at: nat, message: nat) {
    (r.RBytes? || r.RMaxLoad? || r.RMaxSwap?) && r.at == at && r.m.bytes == message
  }

  ghost predicate Covered(s: State, at: nat, message: nat)
    requires at < |s.counters|
  {
    message <= s.counters[at].maximum || exists t <- s.recorders :: MaxOwed(s.recorders[t], at, message)
  }

  ghost predicate SumInv(s: State, at: nat)
    requires at < |s.counters|
  {
    && s.counters[at].records == |LogOf(s.owners, s.log, at)|
    && s.counters[at].bytes + Total(s.recorders, OwedTo(at)) == Sum(LogOf(s.owners, s.log, at))
  }

  ghost predicate MaxInv(s: State, at: nat)
    requires at < |s.counters|
  {
    var log := LogOf(s.owners, s.log, at);
    && (s.counters[at].maximum == 0 || s.counters[at].maximum in log)
    && (forall t <- s.recorders :: s.recorders[t].RMaxSwap? && s.recorders[t].at == at ==>
          s.recorders[t].seen <= s.counters[at].maximum)
    && (forall t <- s.recorders, message | MaxOwed(s.recorders[t], at, message) :: message in log)
    && (forall message <- log :: Covered(s, at, message))
  }

  /** The thread that moves adds to counter `at`. */
  predicate Touches(s: State, a: Action, at: nat) {
    a.Record? && a.t in s.recorders && AddsTo(s.recorders[a.t]) && s.recorders[a.t].at == at
  }

  lemma LogMoves(s: State, a: Action, s': State)
    requires NextRecorder(s, a, s')
    ensures if a.Record? && s.recorders[a.t].RRecords?
            then s'.log == s.log + [s.recorders[a.t].m] && s'.owners == s.owners
            else s'.log == s.log
  {
  }

  /** What a step adds to the log of one counter. */
  lemma LogStep(s: State, a: Action, s': State, at: nat)
    requires PlaceInv(s) && NextRecorder(s, a, s')
    ensures LogOf(s'.owners, s'.log, at)
         == if Touches(s, a, at) && s.recorders[a.t].RRecords?
            then LogOf(s.owners, s.log, at) + [s.recorders[a.t].m.bytes]
            else LogOf(s.owners, s.log, at)
  {
    LogMoves(s, a, s');
    if a.Record? && s.recorders[a.t].RRecords? {
      LogOfGrows(s.owners, s.log, s.recorders[a.t].m, at);
    } else {
      PlaceKeptByRecorder(s, a, s');
      LogOfStays(s.owners, s'.owners, s.log, at);
    }
  }

  /** One step of Record at its counter. */
  predicate Adds(r: Recorder, c: Counter, r': Recorder, c': Counter) {
    match r
    case RRecords(m, at) => c' == c.(records := c.records + 1) && r' == RBytes(m, at)
    case RBytes(m, at) => c' == c.(bytes := c.bytes + m.bytes) && r' == RMaxLoad(m, at)
    case RMaxLoad(m, at) => c' == c && r' == RMaxSwap(m, at, c.maximum)
    case RMaxSwap(m, at, seen) =>
      || (r' == RLeave && c' == c && m.bytes <= seen)
      || (r' == RLeave && c' == c.(maximum := m.bytes) && c.maximum == seen < m.bytes)
      || (r' == RMaxSwap(m, at, c.maximum) && c' == c)
    case _ => false
  }

  lemma CounterStep(s: State, a: Action, s': State, at: nat)
    requires NextRecorder(s, a, s') && at < |s.counters|
    ensures |s'.counters| == |s.counters|
    ensures if Touches(s, a, at) then Adds(s.recorders[a.t], s.counters[at], s'.recorders[a.t], s'.counters[at])
            else s'.counters[at] == s.counters[at]
  {
  }

  /** A step that does not touch the counter owes it nothing before or after. */
  lemma NothingOwedElsewhere(s: State, a: Action, s': State, at: nat)
    requires NextRecorder(s, a, s') && !Touches(s, a, at)
    ensures a.t in s.recorders ==> BytesOwed(s.recorders[a.t], at) == 0
    ensures a.t in s.recorders ==> forall message :: !MaxOwed(s.recorders[a.t], at, message)
    ensures BytesOwed(s'.recorders[a.t], at) == 0 && forall message :: !MaxOwed(s'.recorders[a.t], at, message)
    ensures !(s'.recorders[a.t].RMaxSwap? && s'.recorders[a.t].at == at)
  {
  }

  lemma SumKeptByRecorder(s: State, a: Action, s': State, at: nat)
    requires PlaceInv(s) && NextRecorder(s, a, s') && at < |s.counters| && SumInv(s, at) && |s'.counters| == |s.counters|
    ensures SumInv(s', at)
  {
    LogStep(s, a, s', at);
    RecorderFrame(s, a, s');
    CounterStep(s, a, s', at);
    TotalAfterMove(s.recorders, OwedTo(at), a.t, s'.recorders[a.t]);
    assert OwedTo(at)(s'.recorders[a.t]) == BytesOwed(s'.recorders[a.t], at);
    assert a.t in s.recorders ==> OwedTo(at)(s.recorders[a.t]) == BytesOwed(s.recorders[a.t], at);
    if !Touches(s, a, at) {
      NothingOwedElsewhere(s, a, s', at);
    } else if s.recorders[a.t].RRecords? {
      SumGrows(LogOf(s.owners, s.log, at), s.recorders[a.t].m.bytes);
    }
  }

  lemma CoveredStays(s: State, a: Action, s': State, at: nat, message: nat)
    requires PlaceInv(s) && NextRecorder(s, a, s') && at < |s.counters| && |s'.counters| == |s.counters|
    requires MaxInv(s, at) && Covered(s, at, message)
    ensures Covered(s', at, message)
  {
    RecorderFrame(s, a, s');
    CounterStep(s, a, s', at);
    if s.counters[at].maximum < message {
      var t :| t in s.recorders && MaxOwed(s.recorders[t], at, message);
      if t != a.t {
        assert MaxOwed(s'.recorders[t], at, message);
      } else if !Touches(s, a, at) {
        NothingOwedElsewhere(s, a, s', at);
      } else if s'.recorders[t].RLeave? {
        assert message <= s'.counters[at].maximum;
      } else {
        assert MaxOwed(s'.recorders[t], at, message);
      }
    }
  }

  lemma OwedIsLogged(s: State, a: Action, s': State, at: nat)
    requires PlaceInv(s) && NextRecorder(s, a, s') && at < |s.counters| && |s'.counters| == |s.counters| && MaxInv(s, at)
    ensures forall t <- s'.recorders, message | MaxOwed(s'.recorders[t], at, message) ::
              message in LogOf(s'.owners, s'.log, at)
  {
    RecorderFrame(s, a, s');
    CounterStep(s, a, s', at);
    LogStep(s, a, s', at);
    forall t, message | t in s'.recorders && MaxOwed(s'.recorders[t], at, message)
      ensures message in LogOf(s'.owners, s'.log, at)
    {
      if t != a.t {
        assert MaxOwed(s.recorders[t], at, message);
      } else if !Touches(s, a, at) {
        NothingOwedElsewhere(s, a, s', at);
      } else if !s.recorders[t].RRecords? {
        assert MaxOwed(s.recorders[t], at, message);
      }
    }
  }

  /** The largest message of a counter stays the largest, and what its threads have seen is no larger. */
  lemma MaximumStays(s: State, a: Action, s': State, at: nat)
    requires PlaceInv(s) && NextRecorder(s, a, s') && at < |s.counters| && |s'.counters| == |s.counters| && MaxInv(s, at)
    ensures s'.counters[at].maximum >= s.counters[at].maximum
    ensures s'.counters[at].maximum == 0 || s'.counters[at].maximum in LogOf(s'.owners, s'.log, at)
    ensures forall t <- s'.recorders :: s'.recorders[t].RMaxSwap? && s'.recorders[t].at == at ==>
              s'.recorders[t].seen <= s'.counters[at].maximum
  {
    RecorderFrame(s, a, s');
    CounterStep(s, a, s', at);
    LogStep(s, a, s', at);
    if !Touches(s, a, at) {
      NothingOwedElsewhere(s, a, s', at);
    } else if s'.counters[at].maximum != s.counters[at].maximum {
      assert MaxOwed(s.recorders[a.t], at, s'.counters[at].maximum);
    }
  }

  lemma MaxKeptByRecorder(s: State, a: Action, s': State, at: nat)
    requires PlaceInv(s) && NextRecorder(s, a, s') && at < |s.counters| && |s'.counters| == |s.counters| && MaxInv(s, at)
    ensures MaxInv(s', at)
  {
    OwedIsLogged(s, a, s', at);
    MaximumStays(s, a, s', at);
    LogStep(s, a, s', at);
    forall message | message in LogOf(s'.owners, s'.log, at)
      ensures Covered(s', at, message)
    {
      if message in LogOf(s.owners, s.log, at) {
        CoveredStays(s, a, s', at, message);
      } else {
        RecorderFrame(s, a, s');
        CounterStep(s, a, s', at);
        assert MaxOwed(s'.recorders[a.t], at, message);
      }
    }
  }

  /** Between resets every counter is exact; during one, the counters up to where it is are 0. */
  ghost predicate CountInv(s: State)
    requires PlaceInv(s)
  {
    if Resetting(s.control) then ZeroedInv(s)
    else forall at :: 0 <= at < |s.counters| ==> SumInv(s, at) && MaxInv(s, at)
  }

  function Reached(c: Control): nat {
    match c
    case CZeroRecords(at, _) => at
    case CZeroBytes(at, _) => at
    case CZeroMax(at, _) => at
    case _ => 0
  }

  ghost predicate ZeroedInv(s: State) {
    && s.log == []
    && (forall at :: 0 <= at < |s.counters| && at < Reached(s.control) ==> s.counters[at] == Counter(0, 0, 0))
    && (s.control.CZeroBytes? && s.control.at < |s.counters| ==> s.counters[s.control.at].records == 0)
    && (s.control.CZeroMax? && s.control.at < |s.counters| ==>
          s.counters[s.control.at].records == 0 && s.counters[s.control.at].bytes == 0)
  }

  lemma CountKeptByRecorder(s: State, a: Action, s': State)
    requires QuietInv(s) && PlaceInv(s) && PlaceInv(s') && CountInv(s) && NextRecorder(s, a, s')
    ensures CountInv(s')
  {
    RecorderFrame(s, a, s');
    if Resetting(s.control) {
      assert a.Record? ==> !Recording(s.recorders[a.t]);
      ResetSeesNoStep(s, a, s');
    } else {
      forall at | 0 <= at < |s'.counters|
        ensures SumInv(s', at) && MaxInv(s', at)
      {
        SumKeptByRecorder(s, a, s', at);
        MaxKeptByRecorder(s, a, s', at);
      }
    }
  }

  lemma ResetSeesNoStep(s: State, a: Action, s': State)
    requires NextRecorder(s, a, s') && (a.Record? ==> !Recording(s.recorders[a.t]))
    ensures s'.log == s.log && s'.counters == s.counters
  {
  }

  lemma NothingOwedWhenQuiet(s: State, at: nat)
    requires !SomeRecording(s)
    ensures Total(s.recorders, OwedTo(at)) == 0
    ensures forall t <- s.recorders, message :: !MaxOwed(s.recorders[t], at, message)
  {
    TotalZero(s.recorders, OwedTo(at));
    assert forall t <- s.recorders :: !Recording(s.recorders[t]);
  }

  /** The reset ends with all counters 0 and nothing logged. */
  lemma ZeroIsExact(s: State, at: nat)
    requires !SomeRecording(s) && s.log == [] && at < |s.counters| && s.counters[at] == Counter(0, 0, 0)
    ensures SumInv(s, at) && MaxInv(s, at)
  {
    NothingOwedWhenQuiet(s, at);
    assert forall t <- s.recorders :: !Recording(s.recorders[t]);
  }

  lemma ZeroedKept(s: State, a: Action, s': State)
    requires ZeroedInv(s) && Resetting(s.control) && NextControl(s, a, s')
    ensures s'.recorders == s.recorders && s'.log == [] && |s'.counters| == |s.counters|
    ensures Resetting(s'.control) ==> ZeroedInv(s')
    ensures !Resetting(s'.control) ==> forall at :: 0 <= at < |s'.counters| ==> s'.counters[at] == Counter(0, 0, 0)
  {
  }

  lemma ControlLeavesCounters(s: State, a: Action, s': State)
    requires !Resetting(s.control) && NextControl(s, a, s')
    ensures s'.counters == s.counters && s'.owners == s.owners && s'.recorders == s.recorders
    ensures if Resetting(s'.control) then ZeroedInv(s') else s'.log == s.log
  {
  }

  lemma CountKeptByControl(s: State, a: Action, s': State)
    requires QuietInv(s) && PlaceInv(s) && PlaceInv(s') && CountInv(s) && NextControl(s, a, s')
    ensures CountInv(s')
  {
    if Resetting(s.control) {
      ZeroedKept(s, a, s');
      if !Resetting(s'.control) {
        forall at | 0 <= at < |s'.counters|
          ensures SumInv(s', at) && MaxInv(s', at)
        {
          assert !SomeRecording(s');
          ZeroIsExact(s', at);
        }
      }
    } else {
      ControlLeavesCounters(s, a, s');
      if !Resetting(s'.control) {
        forall at | 0 <= at < |s'.counters|
          ensures SumInv(s', at) && MaxInv(s', at)
        {
          ExactStays(s, s', at);
        }
      }
    }
  }

  lemma ExactStays(s: State, s': State, at: nat)
    requires at < |s.counters| && SumInv(s, at) && MaxInv(s, at)
    requires s'.counters == s.counters && s'.owners == s.owners && s'.recorders == s.recorders && s'.log == s.log
    ensures SumInv(s', at) && MaxInv(s', at)
  {
    forall message | message in LogOf(s.owners, s.log, at)
      ensures Covered(s', at, message)
    {
      assert Covered(s, at, message);
    }
  }

  // ---- theorems over runs ----

  ghost predicate Inv(s: State) {
    QuietInv(s) && PlaceInv(s) && CountInv(s)
  }

  lemma InvInit(s: State)
    requires Init(s)
    ensures Inv(s)
  {
  }

  lemma InvKept(s: State, a: Action, s': State)
    requires Inv(s) && Next(s, a, s')
    ensures Inv(s')
  {
    if NextRecorder(s, a, s') {
      QuietKeptByRecorder(s, a, s');
      PlaceKeptByRecorder(s, a, s');
      CountKeptByRecorder(s, a, s');
    } else {
      QuietKeptByControl(s, a, s');
      PlaceKeptByControl(s, a, s');
      CountKeptByControl(s, a, s');
    }
  }

  lemma {:induction false} RunKeepsInv(states: seq<State>, actions: seq<Action>, n: nat)
    requires IsRun(states, actions) && n < |states|
    ensures Inv(states[n])
  {
    if n == 0 {
      InvInit(states[0]);
    } else {
      RunKeepsInv(states, actions, n - 1);
      InvKept(states[n - 1], actions[n - 1], states[n]);
    }
  }

  /** No Record overlaps a Reset (or the reset inside Start). */
  lemma RecordNeverOverlapsReset(states: seq<State>, actions: seq<Action>, n: nat, t: Tid)
    requires IsRun(states, actions) && n < |states|
    requires Resetting(states[n].control) && t in states[n].recorders
    ensures !Recording(states[n].recorders[t])
  {
    RunKeepsInv(states, actions, n);
    assert !SomeRecording(states[n]);
  }

  /** Once StopLogStatistics has returned no Record is in progress, and none begins until a later
      Start, however late a thread enters. */
  lemma StoppedMeansQuiet(states: seq<State>, actions: seq<Action>, n: nat, t: Tid)
    requires IsRun(states, actions) && n < |states|
    requires states[n].control.CIdle? && !states[n].active && t in states[n].recorders
    ensures !Recording(states[n].recorders[t])
  {
    RunKeepsInv(states, actions, n);
    assert !SomeRecording(states[n]);
  }

  ghost predicate IsMaximum(m: nat, log: seq<nat>) {
    if log == [] then m == 0 else m in log && forall x <- log :: x <= m
  }

  /** The counter holds exactly the number, the sum and the maximum of these messages. */
  ghost predicate Counts(c: Counter, log: seq<nat>) {
    c.records == |log| && c.bytes == Sum(log) && IsMaximum(c.maximum, log)
  }

  /** No Record is in progress and no reset is. */
  ghost predicate Quiet(s: State) {
    !SomeRecording(s) && !Resetting(s.control)
  }

  lemma ExactWhenQuiet(s: State, at: nat)
    requires !SomeRecording(s) && at < |s.counters| && SumInv(s, at) && MaxInv(s, at)
    ensures Counts(s.counters[at], LogOf(s.owners, s.log, at))
  {
    var log := LogOf(s.owners, s.log, at);
    NothingOwedWhenQuiet(s, at);
    assert forall x <- log :: Covered(s, at, x);
    if log != [] {
      assert log[0] in log;
    }
  }

  /** The bytes of the messages of one channel. */
  function BytesOf(log: seq<Message>, c: Channel): seq<nat> {
    if log == [] then []
    else
      var front, m := BytesOf(log[..|log| - 1], c), log[|log| - 1];
      if m.channel == c then front + [m.bytes] else front
  }

  lemma {:induction false} SlotHasItsChannel(owners: seq<Option<Channel>>, log: seq<Message>, i: nat, c: Channel)
    requires SlotsInv(owners) && i < |owners| && owners[i] == Some(c)
    ensures LogOf(owners, log, i + 1) == BytesOf(log, c)
  {
    if log != [] {
      SlotHasItsChannel(owners, log[..|log| - 1], i, c);
      PlaceIsUnique(owners, c, i);
    }
  }

  /** Channel by channel: whenever no Record is in progress and no reset is, a slot counts exactly the
      messages of its channel since the last reset, whatever the interleaving of updates and of the
      making of slots. */
  lemma CountersExact(states: seq<State>, actions: seq<Action>, n: nat, i: nat, c: Channel)
    requires IsRun(states, actions) && n < |states| && Quiet(states[n])
    requires i < |states[n].owners| && states[n].owners[i] == Some(c)
    ensures i + 1 < |states[n].counters| && Counts(states[n].counters[i + 1], BytesOf(states[n].log, c))
  {
    RunKeepsInv(states, actions, n);
    ExactWhenQuiet(states[n], i + 1);
    SlotHasItsChannel(states[n].owners, states[n].log, i, c);
  }

  /** The overflow counts exactly the messages of channels without a slot, and there are some only when
      all slots belong to other channels. */
  lemma OverflowExact(states: seq<State>, actions: seq<Action>, n: nat)
    requires IsRun(states, actions) && n < |states| && Quiet(states[n])
    ensures states[n].counters != [] && Counts(states[n].counters[0], LogOf(states[n].owners, states[n].log, 0))
    ensures forall m <- states[n].log :: Some(m.channel) !in states[n].owners ==> Full(states[n].owners)
  {
    RunKeepsInv(states, actions, n);
    ExactWhenQuiet(states[n], 0);
    assert forall m <- states[n].log :: Settled(states[n].owners, m.channel);
  }

  function AllBytes(log: seq<Message>): seq<nat> {
    if log == [] then [] else AllBytes(log[..|log| - 1]) + [log[|log| - 1].bytes]
  }

  lemma {:induction false} PartsAddUp(owners: seq<Option<Channel>>, log: seq<Message>)
    requires |owners| == CHANNEL_SLOT_COUNT
    ensures |LogOf(owners, log, 0)| + |LogOf(owners, log, 1)| + |LogOf(owners, log, 2)| + |LogOf(owners, log, 3)|
            + |LogOf(owners, log, 4)| == |log|
    ensures Sum(LogOf(owners, log, 0)) + Sum(LogOf(owners, log, 1)) + Sum(LogOf(owners, log, 2))
            + Sum(LogOf(owners, log, 3)) + Sum(LogOf(owners, log, 4)) == Sum(AllBytes(log))
  {
    if log != [] {
      var front, m := log[..|log| - 1], log[|log| - 1];
      PartsAddUp(owners, front);
      SumGrows(LogOf(owners, front, Place(owners, m.channel)), m.bytes);
      SumGrows(AllBytes(front), m.bytes);
    }
  }

  /** Conservation: the five counters of the site together hold every message recorded since the last
      reset, once. */
  lemma NothingLostBetweenSlots(states: seq<State>, actions: seq<Action>, n: nat)
    requires IsRun(states, actions) && n < |states| && Quiet(states[n])
    ensures var c, log := states[n].counters, states[n].log;
      && |c| == CHANNEL_SLOT_COUNT + 1
      && c[0].records + c[1].records + c[2].records + c[3].records + c[4].records == |log|
      && c[0].bytes + c[1].bytes + c[2].bytes + c[3].bytes + c[4].bytes == Sum(AllBytes(log))
  {
    RunKeepsInv(states, actions, n);
    var s := states[n];
    forall at: nat | at < 5
      ensures Counts(s.counters[at], LogOf(s.owners, s.log, at))
    {
      ExactWhenQuiet(s, at);
    }
    PartsAddUp(s.owners, s.log);
  }

  // ---- what a command leaves, and what it makes of a message ----

  /** A command is being served: whether the collector was taken away, what will be stored, and that a
      reset has begun with an empty log. */
  ghost predicate Serving(s: State, cmd: Command, was: bool) {
    !s.active &&
    match s.control
    case CIdle => false
    case CWait(c) => c == cmd && was
    case CWork(c, previous) => c == cmd && previous == was && (cmd.Stop? ==> was)
    case CZeroRecords(_, restore) => cmd != Stop && restore == (cmd.Start? || was) && s.log == []
    case CZeroBytes(_, restore) => cmd != Stop && restore == (cmd.Start? || was) && s.log == []
    case CZeroMax(_, restore) => cmd != Stop && restore == (cmd.Start? || was) && s.log == []
    case CRestore(restore) => cmd != Stop && restore == (cmd.Start? || was) && s.log == []
  }

  /** Whether statistics are on after a command. */
  predicate ActiveAfter(cmd: Command, was: bool) {
    match cmd case Start => true case Stop => false case Reset => was
  }

  ghost predicate Served(s: State, cmd: Command, was: bool) {
    s.control.CIdle? && s.active == ActiveAfter(cmd, was) && (cmd.Stop? || s.log == [])
  }

  lemma ServingStep(s: State, a: Action, s': State, cmd: Command, was: bool)
    requires Inv(s) && Next(s, a, s') && Serving(s, cmd, was)
    ensures Serving(s', cmd, was) || Served(s', cmd, was)
    ensures cmd.Stop? ==> s.log <= s'.log
  {
    if NextRecorder(s, a, s') {
      RecorderFrame(s, a, s');
      LogMoves(s, a, s');
      if a.Record? && s.recorders[a.t].RRecords? {
        assert SomeRecording(s);
      }
    }
  }

  lemma IssueStep(s: State, a: Action, s': State)
    requires Inv(s) && Next(s, a, s') && a.Issue?
    ensures s'.log == s.log
    ensures Serving(s', a.cmd, s.active) || (a.cmd.Stop? && Served(s', Stop, s.active))
  {
  }

  /** One step while a command is being served. */
  ghost predicate ServesOn(states: seq<State>, k: nat, cmd: Command, was: bool) {
    && k + 1 < |states|
    && (Serving(states[k], cmd, was) ==> Serving(states[k + 1], cmd, was) || Served(states[k + 1], cmd, was))
    && (Serving(states[k], cmd, was) && cmd.Stop? ==> states[k].log <= states[k + 1].log)
  }

  lemma {:induction false} ServedAtLast(states: seq<State>, b: nat, e: nat, cmd: Command, was: bool)
    requires b < e < |states| && (Serving(states[b + 1], cmd, was) || Served(states[b + 1], cmd, was))
    requires forall k: nat :: b < k < e ==> ServesOn(states, k, cmd, was)
    requires forall k: nat :: b < k < e ==> !states[k].control.CIdle?
    ensures Serving(states[e], cmd, was) || Served(states[e], cmd, was)
    ensures cmd.Stop? ==> states[b + 1].log <= states[e].log
    decreases e
  {
    if b + 1 < e {
      ServedAtLast(states, b, e - 1, cmd, was);
      assert ServesOn(states, e - 1, cmd, was);
    }
  }

  /** Start turns statistics on, Stop turns them off and Reset leaves them as they were; Start and Reset
      forget all messages, Stop forgets none. */
  lemma CommandTakesEffect(states: seq<State>, actions: seq<Action>, b: nat, e: nat)
    requires IsRun(states, actions) && b < e < |states| && actions[b].Issue?
    requires states[e].control.CIdle? && forall k: nat :: b < k < e ==> !states[k].control.CIdle?
    ensures states[e].active == (actions[b].cmd.Start? || (actions[b].cmd.Reset? && states[b].active))
    ensures if actions[b].cmd.Stop? then states[b].log <= states[e].log else states[e].log == []
  {
    var cmd, was := actions[b].cmd, states[b].active;
    RunKeepsInv(states, actions, b);
    IssueStep(states[b], actions[b], states[b + 1]);
    forall k: nat | b < k < e
      ensures ServesOn(states, k, cmd, was)
    {
      RunKeepsInv(states, actions, k);
      if Serving(states[k], cmd, was) {
        ServingStep(states[k], actions[k], states[k + 1], cmd, was);
      }
    }
    ServedAtLast(states, b, e, cmd, was);
  }

  /** What the steps of thread t from b on added to the log. */
  function AddedBy(states: seq<State>, actions: seq<Action>, b: nat, e: nat, t: Tid): seq<Message>
    requires |states| == |actions| + 1 && e < |states|
  {
    if e <= b then []
    else
      var before, after := states[e - 1].log, states[e].log;
      AddedBy(states, actions, b, e - 1, t)
      + if actions[e - 1] == Record(t) && |before| <= |after| then after[|before|..] else []
  }

  /** The message a thread is recording, and whether it is in the log. */
  predicate At(r: Recorder, m: Message, logged: bool) {
    match r
    case RLeave => logged
    case RDone => logged
    case RBytes(m', _) => m' == m && logged
    case RMaxLoad(m', _) => m' == m && logged
    case RMaxSwap(m', _, _) => m' == m && logged
    case _ => r.m == m && !logged
  }

  lemma StaysActive(s: State, a: Action, s': State)
    requires Inv(s) && Next(s, a, s') && s.active && !a.Issue?
    ensures s'.active && NextRecorder(s, a, s')
  {
  }

  lemma OwnStepLogs(s: State, t: Tid, s': State, m: Message, logged: bool)
    requires s.active && NextRecorder(s, Record(t), s') && At(s.recorders[t], m, logged)
    ensures t in s'.recorders && |s.log| <= |s'.log|
    ensures At(s'.recorders[t], m, logged || s'.log != s.log)
    ensures s'.log[|s.log|..] == if !logged && s'.log != s.log then [m] else []
  {
  }

  /** One step while statistics stay on, seen from thread t with message m. */
  ghost predicate LogsOn(states: seq<State>, actions: seq<Action>, k: nat, t: Tid, m: Message) {
    && k + 1 < |states| && k < |actions|
    && (states[k].active && t in states[k].recorders ==>
          && states[k + 1].active && t in states[k + 1].recorders
          && (forall logged :: At(states[k].recorders[t], m, logged) ==>
                MovesLogged(states[k], states[k + 1], actions[k] == Record(t), t, m, logged)))
  }

  ghost predicate MovesLogged(s: State, s': State, own: bool, t: Tid, m: Message, logged: bool)
    requires t in s.recorders && t in s'.recorders
  {
    if !own then s'.recorders[t] == s.recorders[t]
    else
      && |s.log| <= |s'.log| && At(s'.recorders[t], m, logged || s'.log != s.log)
      && s'.log[|s.log|..] == if !logged && s'.log != s.log then [m] else []
  }

  lemma RunLogsOn(states: seq<State>, actions: seq<Action>, k: nat, t: Tid, m: Message)
    requires IsRun(states, actions) && k < |actions| && !actions[k].Issue? && !(actions[k].Begin? && actions[k].t == t)
    ensures LogsOn(states, actions, k, t, m)
  {
    RunKeepsInv(states, actions, k);
    var s, a, s' := states[k], actions[k], states[k + 1];
    if s.active && t in s.recorders {
      StaysActive(s, a, s');
      RecorderFrame(s, a, s');
      forall logged | At(s.recorders[t], m, logged)
        ensures MovesLogged(s, s', a == Record(t), t, m, logged)
      {
        if a == Record(t) {
          OwnStepLogs(s, t, s', m, logged);
        }
      }
    }
  }

  /** Where the thread is and what it has added so far. */
  ghost predicate LoggedSoFar(states: seq<State>, actions: seq<Action>, b: nat, e: nat, t: Tid, m: Message,
                              logged: bool)
  {
    && |states| == |actions| + 1 && e < |states| && states[e].active && t in states[e].recorders
    && At(states[e].recorders[t], m, logged) && AddedBy(states, actions, b, e, t) == if logged then [m] else []
  }

  lemma LoggedStep(states: seq<State>, actions: seq<Action>, b: nat, k: nat, t: Tid, m: Message, before: bool)
    returns (logged: bool)
    requires b < k && LoggedSoFar(states, actions, b, k, t, m, before) && LogsOn(states, actions, k, t, m)
    ensures LoggedSoFar(states, actions, b, k + 1, t, m, logged)
  {
    var s, s', own := states[k], states[k + 1], actions[k] == Record(t);
    assert MovesLogged(s, s', own, t, m, before);
    logged := before || (own && s'.log != s.log);
    var added := AddedBy(states, actions, b, k, t);
    if own {
      assert AddedBy(states, actions, b, k + 1, t) == added + s'.log[|s.log|..];
    } else {
      assert AddedBy(states, actions, b, k + 1, t) == added;
    }
  }

  lemma {:induction false} LoggedOnce(states: seq<State>, actions: seq<Action>, b: nat, e: nat, t: Tid, m: Message)
    returns (logged: bool)
    requires b < e < |states| && LoggedSoFar(states, actions, b, b + 1, t, m, false)
    requires forall k: nat :: b < k < e ==> LogsOn(states, actions, k, t, m)
    ensures LoggedSoFar(states, actions, b, e, t, m, logged)
    decreases e
  {
    if b + 1 == e {
      logged := false;
    } else {
      var before := LoggedOnce(states, actions, b, e - 1, t, m);
      logged := LoggedStep(states, actions, b, e - 1, t, m, before);
    }
  }

  /** A message that arrives while statistics are on, and is through before another command, is
      recorded once. */
  lemma RecordedOnce(states: seq<State>, actions: seq<Action>, b: nat, e: nat, t: Tid, m: Message)
    requires IsRun(states, actions) && b < e < |states| && states[b].active && actions[b] == Begin(t, m)
    requires forall k: nat :: b < k < e ==> !actions[k].Issue? && !(actions[k].Begin? && actions[k].t == t)
    requires t in states[e].recorders && states[e].recorders[t].RDone?
    ensures AddedBy(states, actions, b, e, t) == [m]
  {
    RunKeepsInv(states, actions, b);
    StaysActive(states[b], actions[b], states[b + 1]);
    assert AddedBy(states, actions, b, b, t) == [];
    forall k: nat | b < k < e
      ensures LogsOn(states, actions, k, t, m)
    {
      RunLogsOn(states, actions, k, t, m);
    }
    var logged := LoggedOnce(states, actions, b, e, t, m);
  }
}
