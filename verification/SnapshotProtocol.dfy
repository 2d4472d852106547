/** Publication and reclamation of subsystem-level snapshots: one writer at a time (under the
    logger's data lock) and any number of readers that take no lock. */
module SnapshotProtocol {
  import opened Wrappers
  import opened SubsystemLevels
  import opened Counting

  /** SUBSYSTEM_LEVEL_SNAPSHOT_LIMIT. */
  const SNAPSHOT_LIMIT: nat := 64

  type Id = nat
  type Tid = nat

  datatype Writer =
    | WIdle
    | WPublish            // SubsystemLevels changed; snapshot not yet made
    | WPushed(id: Id)     // snapshot in the list, not yet active
    | WReclaim            // ActiveSubsystemLevelSnapshot stored; list size not yet tested
    | WFlagged            // reclamation announced; waits for no readers
    | WClearing           // saw no readers; about to drop snapshots
    | WUnflag             // dropped; about to end the reclamation

  /** Where a call of GetSubsystemLevel is. */
  datatype Point =
    | First               // about to test the active pointer
    | Spin                // about to test the reclamation flag
    | Count               // saw no reclamation; about to count itself in
    | Check               // counted; about to test the flag again
    | BackOff             // saw a reclamation; about to count itself out
    | Load                // safe; about to load the active pointer
    | Using(snapshot: Option<Id>)
    | Release(found: Option<nat>)
    | Done(found: Option<nat>)

  /** One call: the key, how many versions had been published when it began, and (once loaded) the
      version it reads. */
  datatype Call = Call(key: nat, since: nat, version: nat, point: Point)

  datatype State = State(
    levels: Levels,               // SubsystemLevels
    contents: map<Id, Levels>,    // what each snapshot ever made holds
    nextId: Id,
    snapshots: seq<Id>,           // SubsystemLevelSnapshots: the ones still alive
    active: Option<Id>,
    reclaiming: bool,
    readers: int,
    writer: Writer,
    calls: map<Tid, Call>,
    history: seq<Levels>          // tables published so far, in order
  )

  ghost predicate Init(s: State) {
    && s.levels == [] && s.contents == map[] && s.nextId == 0 && s.snapshots == [] && s.active == None
    && !s.reclaiming && s.readers == 0 && s.writer == WIdle && s.calls == map[] && s.history == [[]]
  }

  datatype Action =
    | Set(subsystem: nat, level: nat) | Remove(subsystem: nat) | Clear
    | Push | Activate | TestSize | SeeNoReaders | Drop | EndReclaim
    | Begin(t: Tid, key: nat) | Step(t: Tid)

  ghost predicate NextWriter(s: State, a: Action, s': State)
    requires Sorted(s.levels)
  {
    match a
    case Set(subsystem, level) =>
      s.writer.WIdle? && subsystem != 0
      && s' == s.(levels := WithLevel(s.levels, subsystem, level), writer := WPublish)
    case Remove(subsystem) =>
      s.writer.WIdle? && subsystem != 0 && Lookup(s.levels, subsystem) != None
      && s' == s.(levels := Without(s.levels, subsystem), writer := WPublish)
    case Clear =>
      s.writer.WIdle? && s' == s.(levels := [], writer := WPublish)
    case Push =>
      s.writer.WPublish? &&
      (if s.levels == [] then
         s' == s.(active := None, writer := WReclaim, history := s.history + [[]])
       else
         s' == s.(contents := s.contents[s.nextId := s.levels], nextId := s.nextId + 1,
                  snapshots := s.snapshots + [s.nextId], writer := WPushed(s.nextId)))
    case Activate =>
      s.writer.WPushed?
      && s' == s.(active := Some(s.writer.id), writer := WReclaim, history := s.history + [s.levels])
    case TestSize =>
      s.writer.WReclaim? &&
      (if |s.snapshots| <= SNAPSHOT_LIMIT then s' == s.(writer := WIdle)
       else s' == s.(reclaiming := true, writer := WFlagged))
    case SeeNoReaders =>
      s.writer.WFlagged? && s.readers == 0 && s' == s.(writer := WClearing)
    case Drop =>
      s.writer.WClearing?
      && s' == s.(snapshots := if s.active == None || s.snapshots == [] then []
                               else [s.snapshots[|s.snapshots| - 1]],
                  writer := WUnflag)
    case EndReclaim =>
      s.writer.WUnflag? && s' == s.(reclaiming := false, writer := WIdle)
    case _ => false
  }

  /** The table a loaded pointer stands for. */
  function TableAt(s: State, snapshot: Option<Id>): Levels {
    if snapshot.Some? && snapshot.value in s.contents then s.contents[snapshot.value] else []
  }

  function Move(s: State, t: Tid, point: Point): State
    requires t in s.calls
  {
    s.(calls := s.calls[t := s.calls[t].(point := point)])
  }

  ghost predicate NextReader(s: State, a: Action, s': State) {
    match a
    case Begin(t, key) =>
      (t in s.calls ==> s.calls[t].point.Done?) && key != 0 && s.history != []
      && s' == s.(calls := s.calls[t := Call(key, |s.history| - 1, 0, First)])
    case Step(t) =>
      t in s.calls && s.history != [] &&
      (match s.calls[t].point
       case First =>
         if s.active == None then
           s' == s.(calls := s.calls[t := s.calls[t].(version := |s.history| - 1, point := Done(None))])
         else s' == Move(s, t, Spin)
       case Spin => s' == if s.reclaiming then s else Move(s, t, Count)
       case Count => s' == Move(s, t, Check).(readers := s.readers + 1)
       case Check => s' == Move(s, t, if s.reclaiming then BackOff else Load)
       case BackOff => s' == Move(s, t, Spin).(readers := s.readers - 1)
       case Load =>
         s' == s.(calls := s.calls[t := s.calls[t].(version := |s.history| - 1, point := Using(s.active))])
       case Using(snapshot) =>
         Sorted(TableAt(s, snapshot)) && s' == Move(s, t, Release(Lookup(TableAt(s, snapshot), s.calls[t].key)))
       case Release(found) => s' == Move(s, t, Done(found)).(readers := s.readers - 1)
       case Done(_) => false)
    case _ => false
  }

  ghost predicate Next(s: State, a: Action, s': State) {
    (Sorted(s.levels) && NextWriter(s, a, s')) || NextReader(s, a, s')
  }

  ghost predicate IsRun(states: seq<State>, actions: seq<Action>) {
    && |states| == |actions| + 1 && Init(states[0])
    && forall i :: 0 <= i < |actions| ==> Next(states[i], actions[i], states[i + 1])
  }

  // ---- the invariant ----

  /** 1 while the call has counted itself in as a reader. */
  function Counted(c: Call): nat {
    if c.point.Check? || c.point.BackOff? || c.point.Load? || c.point.Using? || c.point.Release? then 1 else 0
  }

  /** The call has passed the second test of the flag and may hold a snapshot. */
  predicate Acquired(c: Call) {
    c.point.Load? || c.point.Using?
  }

  ghost predicate Answers(levels: Levels, key: nat, found: Option<nat>) {
    Sorted(levels) && found == Lookup(levels, key)
  }

  /** What a call has read is the table of a version published no earlier than the call began. */
  ghost predicate CallInv(s: State, c: Call) {
    && c.since < |s.history|
    && (match c.point
        case Using(snapshot) =>
          && c.since <= c.version < |s.history| && TableAt(s, snapshot) == s.history[c.version]
          && (snapshot.Some? ==> snapshot.value in s.snapshots && snapshot.value in s.contents)
        case Release(found) =>
          c.since <= c.version < |s.history| && Answers(s.history[c.version], c.key, found)
        case Done(found) =>
          c.since <= c.version < |s.history| && Answers(s.history[c.version], c.key, found)
        case _ => true)
  }

  ghost predicate TablesSorted(s: State) {
    && Sorted(s.levels)
    && (forall i :: 0 <= i < |s.history| ==> Sorted(s.history[i]))
    && (forall id <- s.contents :: Sorted(s.contents[id]))
  }

  /** How long the list is at each point of the writer. */
  ghost predicate SizeInv(s: State) {
    && (s.writer.WIdle? || s.writer.WPublish? ==> |s.snapshots| <= SNAPSHOT_LIMIT)
    && (s.writer.WUnflag? ==> |s.snapshots| <= 1)
    && |s.snapshots| <= SNAPSHOT_LIMIT + 1
  }

  /** The snapshot the active pointer stands for ends the list, except while a new one is ahead of
      it; it holds the table published last. */
  ghost predicate ListInv(s: State) {
    && s.history != []
    && (forall id <- s.contents :: id < s.nextId)
    && (s.active.Some? ==> s.active.value in s.contents && s.active.value in s.snapshots)
    && TableAt(s, s.active) == s.history[|s.history| - 1]
    && (if s.writer.WPushed? then
          && s.snapshots != [] && s.snapshots[|s.snapshots| - 1] == s.writer.id
          && s.writer.id in s.contents && s.contents[s.writer.id] == s.levels
        else
          s.active.Some? ==> s.snapshots[|s.snapshots| - 1] == s.active.value)
  }

  ghost predicate ReaderInv(s: State) {
    && s.readers == Total(s.calls, Counted)
    && (s.reclaiming <==> s.writer.WFlagged? || s.writer.WClearing? || s.writer.WUnflag?)
    && (s.writer.WClearing? || s.writer.WUnflag? ==> forall t <- s.calls :: !Acquired(s.calls[t]))
  }

  ghost predicate Inv(s: State) {
    TablesSorted(s) && SizeInv(s) && ListInv(s) && ReaderInv(s) && CallsInv(s)
  }

  ghost predicate CallsInv(s: State) {
    forall t <- s.calls :: CallInv(s, s.calls[t])
  }

  lemma InvInit(s: State)
    requires Init(s)
    ensures Inv(s)
  {
  }

  lemma WriterKeepsTables(s: State, a: Action, s': State)
    requires TablesSorted(s) && NextWriter(s, a, s')
    ensures TablesSorted(s')
  {
    match a
    case Set(subsystem, level) => WithLevelMeans(s.levels, subsystem, level);
    case Remove(subsystem) => WithoutMeans(s.levels, subsystem);
    case _ =>
  }

  lemma PublishKeepsList(s: State, a: Action, s': State)
    requires TablesSorted(s) && ListInv(s) && NextWriter(s, a, s') && (a.Push? || a.Activate?)
    ensures ListInv(s')
  {
  }

  lemma ReclaimKeepsList(s: State, a: Action, s': State)
    requires TablesSorted(s) && ListInv(s) && NextWriter(s, a, s') && !a.Push? && !a.Activate?
    ensures ListInv(s')
  {
    assert s'.active == s.active && s'.contents == s.contents && s'.history == s.history && s'.nextId == s.nextId;
  }

  lemma WriterKeepsList(s: State, a: Action, s': State)
    requires TablesSorted(s) && ListInv(s) && NextWriter(s, a, s')
    ensures ListInv(s')
  {
    if a.Push? || a.Activate? {
      PublishKeepsList(s, a, s');
    } else {
      ReclaimKeepsList(s, a, s');
    }
  }

  lemma WriterKeepsSize(s: State, a: Action, s': State)
    requires TablesSorted(s) && SizeInv(s) && NextWriter(s, a, s')
    ensures SizeInv(s')
  {
  }

  lemma WriterKeepsReaders(s: State, a: Action, s': State)
    requires TablesSorted(s) && ReaderInv(s) && NextWriter(s, a, s')
    ensures ReaderInv(s')
  {
    if a.SeeNoReaders? {
      TotalZero(s.calls, Counted);
    }
  }

  lemma WriterKeepsCalls(s: State, a: Action, s': State)
    requires Inv(s) && NextWriter(s, a, s')
    ensures CallsInv(s')
  {
    forall t | t in s'.calls
      ensures CallInv(s', s'.calls[t])
    {
      assert CallInv(s, s.calls[t]);
      assert forall id <- s.contents :: id in s'.contents && s'.contents[id] == s.contents[id];
    }
  }

  lemma ReaderKeepsTables(s: State, a: Action, s': State)
    requires TablesSorted(s) && SizeInv(s) && ListInv(s) && NextReader(s, a, s')
    ensures TablesSorted(s') && SizeInv(s') && ListInv(s')
  {
    assert s' == s.(calls := s'.calls, readers := s'.readers);
  }

  /** A call counts itself in and out, and gets past the test of the flag only when it is down. */
  lemma ReaderMoves(s: State, a: Action, s': State)
    requires NextReader(s, a, s') && s' != s
    ensures a.t in s'.calls && s' == s.(calls := s.calls[a.t := s'.calls[a.t]], readers := s'.readers)
    ensures s'.readers == s.readers - (if a.t in s.calls then Counted(s.calls[a.t]) else 0) + Counted(s'.calls[a.t])
    ensures Acquired(s'.calls[a.t]) ==> !s.reclaiming || (a.t in s.calls && Acquired(s.calls[a.t]))
  {
  }

  lemma ReaderKeepsReaders(s: State, a: Action, s': State)
    requires ReaderInv(s) && NextReader(s, a, s')
    ensures ReaderInv(s')
  {
    if s' != s {
      ReaderMoves(s, a, s');
      TotalAfterMove(s.calls, Counted, a.t, s'.calls[a.t]);
    }
  }

  lemma OwnStepKeepsCall(s: State, a: Action, s': State)
    requires TablesSorted(s) && ListInv(s) && CallsInv(s) && NextReader(s, a, s')
    ensures CallInv(s', s'.calls[a.t])
  {
    if a.Step? {
      assert CallInv(s, s.calls[a.t]);
    }
  }

  lemma ReaderKeepsCalls(s: State, a: Action, s': State)
    requires TablesSorted(s) && ListInv(s) && CallsInv(s) && NextReader(s, a, s')
    ensures CallsInv(s')
  {
    OwnStepKeepsCall(s, a, s');
    assert s' == s.(calls := s'.calls, readers := s'.readers);
    forall t | t in s'.calls && t != a.t
      ensures CallInv(s', s'.calls[t])
    {
      assert s'.calls[t] == s.calls[t];
    }
  }

  lemma InvKept(s: State, a: Action, s': State)
    requires Inv(s) && Next(s, a, s')
    ensures Inv(s')
  {
    if NextWriter(s, a, s') {
      WriterKeepsTables(s, a, s');
      WriterKeepsSize(s, a, s');
      WriterKeepsList(s, a, s');
      WriterKeepsReaders(s, a, s');
      WriterKeepsCalls(s, a, s');
    } else {
      ReaderKeepsTables(s, a, s');
      ReaderKeepsReaders(s, a, s');
      ReaderKeepsCalls(s, a, s');
    }
  }

  lemma {:induction false} RunKeepsInv(states: seq<State>, actions: seq<Action>, n: nat)
    requires IsRun(states, actions) && n < |states|
    ensures Inv(states[n])
  {
    if n == 0 {
      InvInit(states[0]);
    } else {
      RunKeepsInv(states, actions, n - 1);
      InvKept(states[n - 1], actions[n - 1], states[n]);
    }
  }

  // ---- what it gives ----

  /** No reader ever uses a snapshot that has been reclaimed. */
  lemma NoUseAfterReclaim(states: seq<State>, actions: seq<Action>, n: nat, t: Tid)
    requires IsRun(states, actions) && n < |states|
    requires t in states[n].calls && states[n].calls[t].point.Using?
    ensures var snapshot := states[n].calls[t].point.snapshot;
      snapshot.Some? ==> snapshot.value in states[n].snapshots
  {
    RunKeepsInv(states, actions, n);
    assert CallInv(states[n], states[n].calls[t]);
  }

  /** After each publication at most 64 snapshots remain, and the active one is among them. */
  lemma SnapshotsBounded(states: seq<State>, actions: seq<Action>, n: nat)
    requires IsRun(states, actions) && n < |states| && states[n].writer.WIdle?
    ensures |states[n].snapshots| <= SNAPSHOT_LIMIT
    ensures states[n].active.Some? ==> states[n].active.value in states[n].snapshots
  {
    RunKeepsInv(states, actions, n);
  }

  /** A finished call answers the lookup in a table that was the published one at some moment
      between the call's first step and its last. */
  lemma CallIsLinearizable(states: seq<State>, actions: seq<Action>, n: nat, t: Tid)
    requires IsRun(states, actions) && n < |states|
    requires t in states[n].calls && states[n].calls[t].point.Done?
    ensures var s := states[n];
      var c := s.calls[t];
      exists v :: c.since <= v < |s.history| && Answers(s.history[v], c.key, c.point.found)
  {
    RunKeepsInv(states, actions, n);
    assert CallInv(states[n], states[n].calls[t]);
    assert states[n].calls[t].version < |states[n].history|;
  }

  // ---- answers and the changes of the run ----

  /** What the first n actions say of a key: the level set last, unless it was removed since. */
  function LastChange(actions: seq<Action>, n: nat, key: nat): Option<nat>
    requires n <= |actions|
  {
    if n == 0 then None
    else
      match actions[n - 1]
      case Set(subsystem, level) => if subsystem == key then Some(level) else LastChange(actions, n - 1, key)
      case Remove(subsystem) => if subsystem == key then None else LastChange(actions, n - 1, key)
      case Clear => None
      case _ => LastChange(actions, n - 1, key)
  }

  predicate Changes(a: Action, key: nat) {
    (a.Set? && a.subsystem == key) || (a.Remove? && a.subsystem == key) || a.Clear?
  }

  /** The change made last has been published: the call that made it is past storing the pointer. */
  predicate Published(w: Writer) {
    !w.WPublish? && !w.WPushed?
  }

  /** What a key's level is after an action. */
  function After(a: Action, key: nat, before: Option<nat>): Option<nat> {
    if a.Set? && a.subsystem == key then Some(a.level) else if Changes(a, key) then None else before
  }

  lemma ChangeStep(s: State, a: Action, s': State, key: nat)
    requires TablesSorted(s) && TablesSorted(s') && Next(s, a, s')
    ensures Lookup(s'.levels, key) == After(a, key, Lookup(s.levels, key))
  {
    match a
    case Set(subsystem, level) => LookupAfterSet(s.levels, subsystem, level, key);
    case Remove(subsystem) => LookupAfterRemove(s.levels, subsystem, key);
    case _ =>
  }

  ghost predicate ChangesTable(states: seq<State>, actions: seq<Action>, k: nat, key: nat) {
    && k < |actions| && k + 1 < |states| && Sorted(states[k].levels) && Sorted(states[k + 1].levels)
    && Lookup(states[k + 1].levels, key) == After(actions[k], key, Lookup(states[k].levels, key))
  }

  lemma RunChangesTable(states: seq<State>, actions: seq<Action>, k: nat, key: nat)
    requires IsRun(states, actions) && k < |actions|
    ensures ChangesTable(states, actions, k, key)
  {
    var next := k + 1;
    RunKeepsInv(states, actions, k);
    RunKeepsInv(states, actions, next);
    ChangeStep(states[k], actions[k], states[next], key);
  }

  lemma {:induction false} ChangesAddUp(states: seq<State>, actions: seq<Action>, n: nat, key: nat)
    requires n <= |actions| && n < |states| && states[0].levels == []
    requires forall k: nat :: k < n ==> ChangesTable(states, actions, k, key)
    ensures Sorted(states[n].levels) && Lookup(states[n].levels, key) == LastChange(actions, n, key)
  {
    if n > 0 {
      var m := n - 1;
      ChangesAddUp(states, actions, m, key);
      assert ChangesTable(states, actions, m, key);
    }
  }

  /** The table is what the changes made so far say. */
  lemma TableFollowsChanges(states: seq<State>, actions: seq<Action>, n: nat, key: nat)
    requires IsRun(states, actions) && n < |states|
    ensures Sorted(states[n].levels) && Lookup(states[n].levels, key) == LastChange(actions, n, key)
  {
    forall k: nat | k < n
      ensures ChangesTable(states, actions, k, key)
    {
      RunChangesTable(states, actions, k, key);
    }
    ChangesAddUp(states, actions, n, key);
  }

  /** A step publishes the table or leaves the versions, and nothing is waiting behind the last one
      once the change is published. */
  lemma HistoryStep(s: State, a: Action, s': State)
    requires TablesSorted(s) && Next(s, a, s')
    ensures s'.history == s.history || s'.history == s.history + [s'.levels]
    ensures Published(s'.writer) ==>
              s'.history == s.history + [s'.levels]
              || (s'.history == s.history && s'.levels == s.levels && Published(s.writer))
  {
    if NextReader(s, a, s') {
      ReaderKeepsHistory(s, a, s');
    } else {
      WriterMakesHistory(s, a, s');
    }
  }

  lemma ReaderKeepsHistory(s: State, a: Action, s': State)
    requires NextReader(s, a, s')
    ensures s'.history == s.history && s'.levels == s.levels && s'.writer == s.writer
  {
  }

  lemma WriterMakesHistory(s: State, a: Action, s': State)
    requires Sorted(s.levels) && NextWriter(s, a, s')
    ensures s'.history == s.history || s'.history == s.history + [s'.levels]
    ensures Published(s'.writer) ==>
              s'.history == s.history + [s'.levels]
              || (s'.history == s.history && s'.levels == s.levels && Published(s.writer))
  {
  }

  lemma {:induction false} LastVersionIsTable(states: seq<State>, actions: seq<Action>, n: nat)
    requires IsRun(states, actions) && n < |states| && Published(states[n].writer)
    ensures states[n].history != [] && states[n].history[|states[n].history| - 1] == states[n].levels
  {
    if n > 0 {
      RunKeepsInv(states, actions, n - 1);
      HistoryStep(states[n - 1], actions[n - 1], states[n]);
      if states[n].history == states[n - 1].history {
        LastVersionIsTable(states, actions, n - 1);
      }
    }
  }

  /** Version v answers for `key` as the changes made up to some moment between p and m say. */
  ghost predicate AnswersFrom(s: State, actions: seq<Action>, p: nat, m: nat, v: nat, key: nat) {
    && v < |s.history| && Sorted(s.history[v])
    && exists q :: p <= q <= m && q <= |actions| && Lookup(s.history[v], key) == LastChange(actions, q, key)
  }

  /** All versions from the one published last at p on do. */
  ghost predicate AllAnswerFrom(s: State, actions: seq<Action>, p: nat, m: nat, first: nat, key: nat) {
    first < |s.history| && forall v :: first <= v < |s.history| ==> AnswersFrom(s, actions, p, m, v, key)
  }

  lemma VersionsStep(s: State, s': State, actions: seq<Action>, p: nat, m: nat, first: nat, key: nat)
    requires AllAnswerFrom(s, actions, p, m, first, key) && p <= m < |actions|
    requires s'.history == s.history || s'.history == s.history + [s'.levels]
    requires Sorted(s'.levels) && Lookup(s'.levels, key) == LastChange(actions, m + 1, key)
    ensures AllAnswerFrom(s', actions, p, m + 1, first, key)
  {
    var next := m + 1;
    forall v: nat | first <= v < |s'.history|
      ensures AnswersFrom(s', actions, p, next, v, key)
    {
      if v < |s.history| {
        assert AnswersFrom(s, actions, p, m, v, key);
      }
    }
  }

  /** Step k publishes the table or nothing, and the table then is what the changes say. */
  ghost predicate Follows(states: seq<State>, actions: seq<Action>, k: nat, key: nat) {
    && k + 1 < |states| && k < |actions|
    && (states[k + 1].history == states[k].history
        || states[k + 1].history == states[k].history + [states[k + 1].levels])
    && Sorted(states[k + 1].levels) && Lookup(states[k + 1].levels, key) == LastChange(actions, k + 1, key)
  }

  lemma RunFollows(states: seq<State>, actions: seq<Action>, k: nat, key: nat)
    requires IsRun(states, actions) && k < |actions|
    ensures Follows(states, actions, k, key)
  {
    RunKeepsInv(states, actions, k);
    HistoryStep(states[k], actions[k], states[k + 1]);
    TableFollowsChanges(states, actions, k + 1, key);
  }

  lemma {:induction false} VersionsFrom(states: seq<State>, actions: seq<Action>, p: nat, m: nat, first: nat, key: nat)
    requires p <= m < |states| && p <= |actions| && AllAnswerFrom(states[p], actions, p, p, first, key)
    requires forall k: nat :: k < |actions| ==> Follows(states, actions, k, key)
    requires |states| == |actions| + 1
    ensures AllAnswerFrom(states[m], actions, p, m, first, key)
    decreases m
  {
    if p < m {
      VersionsFrom(states, actions, p, m - 1, first, key);
      assert Follows(states, actions, m - 1, key);
      VersionsStep(states[m - 1], states[m], actions, p, m - 1, first, key);
    }
  }

  lemma RunFollowsAlways(states: seq<State>, actions: seq<Action>, key: nat)
    requires IsRun(states, actions)
    ensures forall k: nat :: k < |actions| ==> Follows(states, actions, k, key)
  {
    forall k: nat | k < |actions|
      ensures Follows(states, actions, k, key)
    {
      RunFollows(states, actions, k, key);
    }
  }

  lemma LastVersionAnswers(states: seq<State>, actions: seq<Action>, p: nat, key: nat)
    requires IsRun(states, actions) && p < |states| && Published(states[p].writer)
    ensures states[p].history != []
    ensures AllAnswerFrom(states[p], actions, p, p, |states[p].history| - 1, key)
  {
    TableFollowsChanges(states, actions, p, key);
    LastVersionIsTable(states, actions, p);
    TableAnswers(states[p], actions, p, key);
  }

  lemma TableAnswers(s: State, actions: seq<Action>, p: nat, key: nat)
    requires s.history != [] && s.history[|s.history| - 1] == s.levels && p <= |actions|
    requires Sorted(s.levels) && Lookup(s.levels, key) == LastChange(actions, p, key)
    ensures AllAnswerFrom(s, actions, p, p, |s.history| - 1, key)
  {
    assert AnswersFrom(s, actions, p, p, |s.history| - 1, key);
  }

  lemma VersionsFollowChanges(states: seq<State>, actions: seq<Action>, p: nat, m: nat, key: nat)
    requires IsRun(states, actions) && p <= m < |states| && Published(states[p].writer)
    ensures states[p].history != []
    ensures AllAnswerFrom(states[m], actions, p, m, |states[p].history| - 1, key)
  {
    LastVersionAnswers(states, actions, p, key);
    RunFollowsAlways(states, actions, key);
    VersionsFrom(states, actions, p, m, |states[p].history| - 1, key);
  }

  /** Thread t makes no other call in the actions from b on. */
  predicate OneCall(actions: seq<Action>, b: nat, n: nat, t: Tid) {
    forall k :: b < k < n && k < |actions| ==> !(actions[k].Begin? && actions[k].t == t)
  }

  lemma CallStep(s: State, a: Action, s': State, t: Tid)
    requires TablesSorted(s) && Next(s, a, s') && t in s.calls && !(a.Begin? && a.t == t)
    ensures t in s'.calls && s'.calls[t].key == s.calls[t].key && s'.calls[t].since == s.calls[t].since
  {
    if NextReader(s, a, s') {
      if s' != s {
        ReaderMoves(s, a, s');
      }
    } else {
      assert s'.calls == s.calls;
    }
  }

  lemma {:induction false} CallOfThread(states: seq<State>, actions: seq<Action>, b: nat, n: nat, t: Tid, key: nat)
    requires IsRun(states, actions) && b < n < |states| && actions[b] == Begin(t, key) && OneCall(actions, b, n, t)
    ensures t in states[n].calls && states[n].calls[t].key == key
    ensures states[n].calls[t].since == |states[b].history| - 1
    decreases n
  {
    RunKeepsInv(states, actions, n - 1);
    if n - 1 > b {
      CallOfThread(states, actions, b, n - 1, t, key);
      CallStep(states[n - 1], actions[n - 1], states[n], t);
    }
  }

  /** A finished call answers what the changes of the run say of its key at some moment between the
      last change published before it began and its end. */
  lemma AnswerIsAChange(states: seq<State>, actions: seq<Action>, p: nat, b: nat, n: nat, t: Tid, key: nat)
    returns (q: nat)
    requires IsRun(states, actions) && p <= b < n < |states| && Published(states[p].writer)
    requires actions[b] == Begin(t, key) && OneCall(actions, b, n, t)
    requires t in states[n].calls && states[n].calls[t].point.Done?
    ensures p <= q <= n && states[n].calls[t].point.found == LastChange(actions, q, key)
  {
    RunKeepsInv(states, actions, n);
    CallOfThread(states, actions, b, n, t, key);
    VersionsFollowChanges(states, actions, p, b, key);
    VersionsFollowChanges(states, actions, p, n, key);
    var c := states[n].calls[t];
    assert CallInv(states[n], c);
    assert AnswersFrom(states[n], actions, p, n, c.version, key);
    q :| p <= q <= n && q <= |actions| && Lookup(states[n].history[c.version], key) == LastChange(actions, q, key);
  }

  lemma {:induction false} Unchanged(actions: seq<Action>, p: nat, q: nat, key: nat)
    requires p <= q <= |actions| && forall k :: p <= k < q ==> !Changes(actions[k], key)
    ensures LastChange(actions, q, key) == LastChange(actions, p, key)
  {
    if p < q {
      Unchanged(actions, p, q - 1, key);
    }
  }

  /** A call that begins after a change was published, and ends before the next change of its key,
      answers that change: the level after a set, nothing after a removal or a clear. */
  lemma AnswerIsLastChange(states: seq<State>, actions: seq<Action>, i: nat, p: nat, b: nat, n: nat, t: Tid, key: nat)
    requires IsRun(states, actions) && i < p <= b < n < |states| && Published(states[p].writer)
    requires actions[b] == Begin(t, key) && OneCall(actions, b, n, t)
    requires t in states[n].calls && states[n].calls[t].point.Done?
    requires Changes(actions[i], key) && forall k :: i < k < n ==> !Changes(actions[k], key)
    ensures states[n].calls[t].point.found == if actions[i].Set? then Some(actions[i].level) else None
  {
    var q := AnswerIsAChange(states, actions, p, b, n, t, key);
    Unchanged(actions, i + 1, q, key);
  }
}
