/** The same pipeline reduced to the places an append can be in. The protocol refines this machine,
    so what every move keeps holds after every step. */
module FlushLedger {
  import opened FlushProtocol

  datatype Ledger = Ledger(
    current: seq<Msg>,       // in the current buffer
    rolled: seq<Msg>,        // in the full buffer the appender still has to enqueue
    held: seq<Msg>,          // in buffers Flush callers have published and still have to enqueue
    ready: seq<Msg>,
    taken: seq<Msg>,         // in the worker's hands
    written: seq<Msg>,       // finished but still counted in `queued`
    inFlight: seq<Msg>,      // last of `current`, not yet counted in `queued`
    queued: int,
    accepted: seq<Msg>,
    finished: seq<Msg>
  )

  datatype Move =
    | Stay
    | Arrive(m: Msg)         // copied into the current buffer
    | Roll(m: Msg)           // current buffer replaced, the append goes to the new one
    | EnqueueRolled
    | Count
    | Publish                // current buffer to a Flush caller
    | HandOver(msgs: seq<Msg>, rest: seq<Msg>)
    | Force                  // current buffer to the worker
    | EnqueueForced
    | Take
    | Finish
    | Lower

  ghost predicate LedgerStep(l: Ledger, v: Move, l': Ledger) {
    match v
    case Stay => l' == l
    case Arrive(m) =>
      l.inFlight == [] && l' == l.(current := l.current + [m], inFlight := [m])
    case Roll(m) =>
      l.inFlight == [] && l.rolled == [] && l' == l.(rolled := l.current, current := [m], inFlight := [m])
    case EnqueueRolled => l' == l.(ready := l.ready + l.rolled, rolled := [])
    case Count =>
      l' == l.(queued := l.queued + SumMsgs(l.inFlight), accepted := l.accepted + l.inFlight, inFlight := [])
    case Publish => l.inFlight == [] && l' == l.(held := l.held + l.current, current := [])
    case HandOver(msgs, rest) =>
      && SumMsgs(l.held) == SumMsgs(msgs) + SumMsgs(rest)
      && multiset(l.held) == multiset(msgs) + multiset(rest)
      && l' == l.(held := rest, ready := l.ready + msgs)
    case Force => l.inFlight == [] && l.taken == [] && l' == l.(taken := l.current, current := [])
    case EnqueueForced => l' == l.(ready := l.ready + l.taken, taken := [])
    case Take => l.taken == [] && l' == l.(taken := l.ready, ready := [])
    case Finish => l.written == [] && l' == l.(written := l.taken, taken := [], finished := l.finished + l.taken)
    case Lower => l' == l.(queued := l.queued - SumMsgs(l.written), written := [])
  }

  lemma {:induction false} SumMsgsAppend(a: seq<Msg>, b: seq<Msg>)
    ensures SumMsgs(a + b) == SumMsgs(a) + SumMsgs(b)
  {
    if a == [] {
      assert a + b == b;
    } else {
      assert (a + b)[1..] == a[1..] + b;
      SumMsgsAppend(a[1..], b);
    }
  }

  /** Appends have bytes, so only no append at all sums up to nothing. */
  lemma {:induction false} SumMsgsZero(msgs: seq<Msg>)
    ensures SumMsgs(msgs) == 0 <==> msgs == []
  {
    if msgs != [] {
      SumMsgsZero(msgs[1..]);
    }
  }

  /** QueuedBytes counts exactly the appends accepted and not finished; an append still inside
      BufferQueue::Append is already in the current buffer but not yet counted. */
  ghost predicate BytesBalance(l: Ledger) {
    l.queued + SumMsgs(l.inFlight)
    == SumMsgs(l.current) + SumMsgs(l.rolled) + SumMsgs(l.held) + SumMsgs(l.ready) + SumMsgs(l.taken)
       + SumMsgs(l.written)
  }

  /** No append is lost, copied or made up on its way from the caller to the writer. */
  ghost predicate AppendsBalance(l: Ledger) {
    forall m: Msg :: Entered(l, m) == Placed(l, m)
  }

  /** How often an append has entered the pipeline, and in how many places it is. */
  ghost function Entered(l: Ledger, m: Msg): nat {
    multiset(l.accepted)[m] + multiset(l.inFlight)[m]
  }

  ghost function Placed(l: Ledger, m: Msg): nat {
    multiset(l.current)[m] + multiset(l.rolled)[m] + multiset(l.held)[m] + multiset(l.ready)[m]
    + multiset(l.taken)[m] + multiset(l.finished)[m]
  }

  ghost predicate LedgerInv(l: Ledger) {
    && BytesBalance(l) && AppendsBalance(l)
    && (l.inFlight == [] || (l.current != [] && l.inFlight == [l.current[|l.current| - 1]]))
  }

  lemma BytesBalanceKept(l: Ledger, v: Move, l': Ledger)
    requires BytesBalance(l) && LedgerStep(l, v, l')
    ensures BytesBalance(l')
  {
    match v
    case Arrive(m) => SumMsgsAppend(l.current, [m]);
    case Roll(m) =>
    case EnqueueRolled => SumMsgsAppend(l.ready, l.rolled);
    case Publish => SumMsgsAppend(l.held, l.current);
    case HandOver(msgs, rest) => SumMsgsAppend(l.ready, msgs);
    case EnqueueForced => SumMsgsAppend(l.ready, l.taken);
    case _ =>
  }

  lemma AppendsBalanceKept(l: Ledger, v: Move, l': Ledger)
    requires AppendsBalance(l) && LedgerStep(l, v, l')
    ensures AppendsBalance(l')
  {
    forall m: Msg
      ensures Entered(l', m) == Placed(l', m)
    {
      assert Entered(l, m) == Placed(l, m);
    }
  }

  lemma LedgerInvKept(l: Ledger, v: Move, l': Ledger)
    requires LedgerInv(l) && LedgerStep(l, v, l')
    ensures LedgerInv(l')
  {
    BytesBalanceKept(l, v, l');
    AppendsBalanceKept(l, v, l');
  }

  /** The current buffer without the append in flight. */
  lemma SplitInFlight(l: Ledger) returns (settled: seq<Msg>)
    requires LedgerInv(l)
    ensures l.current == settled + l.inFlight
    ensures SumMsgs(l.current) == SumMsgs(settled) + SumMsgs(l.inFlight)
  {
    settled := l.current[..|l.current| - |l.inFlight|];
    assert l.current == settled + l.inFlight;
    SumMsgsAppend(settled, l.inFlight);
  }

  /** QueuedBytes never goes below zero, and the writer never takes off more than it holds. */
  lemma QueuedNeverUnderflows(l: Ledger)
    requires LedgerInv(l)
    ensures 0 <= SumMsgs(l.written) <= l.queued
  {
    var settled := SplitInFlight(l);
  }

  /** QueuedBytes == 0 means that every append counted so far has been handed to the writer. */
  lemma NothingQueuedMeansAllFinished(l: Ledger)
    requires LedgerInv(l) && l.queued == 0
    ensures multiset(l.accepted) == multiset(l.finished)
    ensures l.current == l.inFlight && l.ready == [] && l.held == []
  {
    var settled := SplitInFlight(l);
    SumMsgsZero(settled);
    SumMsgsZero(l.rolled);
    SumMsgsZero(l.held);
    SumMsgsZero(l.ready);
    SumMsgsZero(l.taken);
    forall m: Msg
      ensures multiset(l.accepted)[m] == multiset(l.finished)[m]
    {
      assert Entered(l, m) == Placed(l, m);
    }
  }

  lemma NoPlaceLeft(l: Ledger, part: seq<Msg>)
    requires AppendsBalance(l) && l.accepted == [] && l.inFlight == []
    requires part == l.current || part == l.rolled || part == l.held || part == l.ready || part == l.taken
    ensures part == []
  {
    forall m: Msg
      ensures multiset(part)[m] == 0
    {
      assert Entered(l, m) == Placed(l, m);
    }
    assert multiset(part) == multiset{};
    assert |multiset(part)| == |part|;
  }

  /** Nothing accepted and nothing in anybody's hands means nothing queued. */
  lemma NothingAcceptedMeansNothingQueued(l: Ledger)
    requires LedgerInv(l) && l.accepted == [] && l.inFlight == [] && l.written == []
    ensures l.queued == 0
  {
    NoPlaceLeft(l, l.current);
    NoPlaceLeft(l, l.rolled);
    NoPlaceLeft(l, l.held);
    NoPlaceLeft(l, l.ready);
    NoPlaceLeft(l, l.taken);
  }

  // ---- the protocol refines the ledger ----

  lemma {:induction false} FlatAppend(a: seq<Buf>, b: seq<Buf>)
    ensures Flat(a + b) == Flat(a) + Flat(b)
  {
    if a == [] {
      assert a + b == b;
    } else {
      assert (a + b)[1..] == a[1..] + b;
      FlatAppend(a[1..], b);
    }
  }

  lemma {:induction false} FlatHeldAppend(a: seq<(Tid, Buf)>, b: seq<(Tid, Buf)>)
    ensures FlatHeld(a + b) == FlatHeld(a) + FlatHeld(b)
  {
    if a == [] {
      assert a + b == b;
    } else {
      assert (a + b)[1..] == a[1..] + b;
      FlatHeldAppend(a[1..], b);
    }
  }

  /** A part taken out of the middle. */
  lemma TakenFromMiddle(a: seq<Msg>, b: seq<Msg>, c: seq<Msg>)
    ensures SumMsgs(a + (b + c)) == SumMsgs(b) + SumMsgs(a + c)
    ensures multiset(a + (b + c)) == multiset(b) + multiset(a + c)
  {
    SumMsgsAppend(a, b + c);
    SumMsgsAppend(b, c);
    SumMsgsAppend(a, c);
  }

  lemma HeldSplit(held: seq<(Tid, Buf)>, at: nat)
    requires at < |held|
    ensures FlatHeld(held) == FlatHeld(held[..at]) + (held[at].1.msgs + FlatHeld(held[at + 1..]))
    ensures FlatHeld(held[..at] + held[at + 1..]) == FlatHeld(held[..at]) + FlatHeld(held[at + 1..])
  {
    var before, rest := held[..at], held[at..];
    assert held == before + rest && rest[1..] == held[at + 1..];
    FlatHeldAppend(before, rest);
    FlatHeldAppend(before, held[at + 1..]);
  }

  lemma HeldWithout(held: seq<(Tid, Buf)>, at: nat)
    requires at < |held|
    ensures SumMsgs(FlatHeld(held)) == SumMsgs(held[at].1.msgs) + SumMsgs(FlatHeld(held[..at] + held[at + 1..]))
    ensures multiset(FlatHeld(held)) == multiset(held[at].1.msgs) + multiset(FlatHeld(held[..at] + held[at + 1..]))
  {
    HeldSplit(held, at);
    TakenFromMiddle(FlatHeld(held[..at]), held[at].1.msgs, FlatHeld(held[at + 1..]));
  }

  function InFlight(a: Appender): seq<Msg> {
    match a
    case ASwapFlag(m, _) => [m]
    case AEnqueue(m, _) => [m]
    case ACount(m, _) => [m]
    case _ => []
  }

  function Rolled(a: Appender): seq<Msg> {
    match a
    case ASwapFlag(_, full) => full.msgs
    case AEnqueue(_, full) => full.msgs
    case _ => []
  }

  function Taken(w: Worker): seq<Msg> {
    match w
    case WClear(_, full) => full.msgs
    case WEnqueue(_, full) => full.msgs
    case WWrite(_, data) => Flat(data)
    case _ => []
  }

  function Written(w: Worker): seq<Msg> {
    match w
    case WSubtract(_, data) => Flat(data)
    case _ => []
  }

  function LedgerOf(s: State): Ledger {
    Ledger(s.queue.current.msgs, Rolled(s.appender), FlatHeld(s.held), Flat(s.queue.ready), Taken(s.worker),
           Written(s.worker), InFlight(s.appender), s.queued, s.accepted, s.finished)
  }

  lemma AppendRefines(s: State, a: Action, s': State) returns (v: Move)
    requires NextAppend(s, a, s')
    ensures LedgerStep(LedgerOf(s), v, LedgerOf(s'))
  {
    v := Stay;
    if a.AAppend? {
      var m := s.appender.m;
      if s'.appender.ASwapFlag? {
        v := Roll(m);
      } else if s'.appender.ACount? {
        v := Arrive(m);
      }
    }
  }

  lemma CompleteRefines(s: State, a: Action, s': State) returns (v: Move)
    requires NextComplete(s, a, s')
    ensures LedgerStep(LedgerOf(s), v, LedgerOf(s'))
  {
    v := Stay;
    match a
    case ASetFlag =>
      if s.appender.AFlag? {
        v := Arrive(s.appender.m);
      }
    case APutReady =>
      v := EnqueueRolled;
      FlatAppend(s.queue.ready, [s.appender.full]);
    case ARaise =>
      v := Count;
    case _ =>
  }

  lemma PublishRefines(s: State, a: Action, s': State) returns (v: Move)
    requires s.lock == Free ==> s.appender == NoAppender
    requires NextPublish(s, a, s')
    ensures LedgerStep(LedgerOf(s), v, LedgerOf(s'))
  {
    v := Stay;
    if a.FDoSwap? && s.queue.current.msgs != [] {
      v := Publish;
      FlatHeldAppend(s.held, [(a.t, s.queue.current)]);
    }
  }

  lemma HandOverMove(l: Ledger, msgs: seq<Msg>, l': Ledger)
    requires SumMsgs(l.held) == SumMsgs(msgs) + SumMsgs(l'.held)
    requires multiset(l.held) == multiset(msgs) + multiset(l'.held)
    requires l' == l.(held := l'.held, ready := l.ready + msgs)
    ensures LedgerStep(l, HandOver(msgs, l'.held), l')
  {
  }

  lemma HandOverRefines(s: State, a: Action, s': State) returns (v: Move)
    requires NextHandOver(s, a, s')
    ensures LedgerStep(LedgerOf(s), v, LedgerOf(s'))
  {
    if a.FDoEnqueue? {
      var b := s.held[a.at].1;
      HeldWithout(s.held, a.at);
      FlatAppend(s.queue.ready, [b]);
      assert Flat([b]) == b.msgs;
      v := HandOver(b.msgs, FlatHeld(s'.held));
      HandOverMove(LedgerOf(s), b.msgs, LedgerOf(s'));
    } else {
      v := Stay;
    }
  }

  lemma WriterMoves(s: State, a: Action, s': State)
    requires NextWriter(s, a, s')
    ensures s' == s.(worker := s'.worker, queue := s'.queue, queued := s'.queued, finished := s'.finished,
                     epoch := s'.epoch)
    ensures s'.queue == s.queue.(ready := s'.queue.ready)
    ensures a.WTakeReady? || a.WDoWrite? || a.WLower? ||
            (s'.queue == s.queue && s'.queued == s.queued && s'.finished == s.finished
             && Taken(s.worker) == Taken(s'.worker) && Written(s.worker) == Written(s'.worker))
  {
  }

  lemma WriterRefines(s: State, a: Action, s': State) returns (v: Move)
    requires NextWriter(s, a, s')
    ensures LedgerStep(LedgerOf(s), v, LedgerOf(s'))
  {
    WriterMoves(s, a, s');
    match a
    case WTakeReady =>
      v := if s.queue.ready == [] then Stay else Take;
    case WDoWrite =>
      v := Finish;
    case WLower =>
      v := Lower;
    case _ =>
      v := Stay;
  }

  lemma ForcedMoves(s: State, a: Action, s': State)
    requires NextForced(s, a, s')
    ensures s' == s.(worker := s'.worker, queue := s'.queue, lock := s'.lock)
    ensures a.WDoSwap? || a.WDoEnqueue? ||
            (s'.queue.current == s.queue.current && s'.queue.ready == s.queue.ready
             && Taken(s.worker) == Taken(s'.worker) && Written(s.worker) == Written(s'.worker))
  {
  }

  lemma ForcedRefines(s: State, a: Action, s': State) returns (v: Move)
    requires s.lock == Free ==> s.appender == NoAppender
    requires NextForced(s, a, s')
    ensures LedgerStep(LedgerOf(s), v, LedgerOf(s'))
  {
    ForcedMoves(s, a, s');
    match a
    case WDoSwap =>
      v := if s.queue.current.msgs != [] then Force else Stay;
    case WDoEnqueue =>
      v := EnqueueForced;
      FlatAppend(s.queue.ready, [s.worker.full]);
    case _ =>
      v := Stay;
  }

  /** The remaining steps touch no append and no count. */
  lemma RecordMovesNothing(s: State, a: Action, s': State)
    requires s.lock == Free ==> s.appender == NoAppender
    requires NextRegister(s, a, s') || NextDecide(s, a, s') || NextRequest(s, a, s')
    ensures LedgerOf(s') == LedgerOf(s)
  {
    assert InFlight(s.appender) == InFlight(s'.appender) == Rolled(s.appender) == Rolled(s'.appender) == [];
  }

  lemma WaitMovesNothing(s: State, a: Action, s': State)
    requires NextWait(s, a, s')
    ensures LedgerOf(s') == LedgerOf(s)
  {
  }

  lemma ManagerMovesNothing(s: State, a: Action, s': State)
    requires NextManager(s, a, s')
    ensures LedgerOf(s') == LedgerOf(s)
  {
    assert Taken(s.worker) == Taken(s'.worker) && Written(s.worker) == Written(s'.worker);
  }

  lemma UpdateMovesNothing(s: State, a: Action, s': State)
    requires NextLook(s, a, s') || NextRecheck(s, a, s')
    ensures LedgerOf(s') == LedgerOf(s)
  {
    assert s' == s.(worker := s'.worker, flushTime := s'.flushTime);
    assert Taken(s.worker) == Taken(s'.worker) == Written(s.worker) == Written(s'.worker) == [];
  }

  lemma StepRefinesLedger(s: State, a: Action, s': State) returns (v: Move)
    requires s.lock == Free ==> s.appender == NoAppender
    requires Next(s, a, s')
    ensures LedgerStep(LedgerOf(s), v, LedgerOf(s'))
  {
    if NextAppend(s, a, s') {
      v := AppendRefines(s, a, s');
    } else if NextComplete(s, a, s') {
      v := CompleteRefines(s, a, s');
    } else if NextPublish(s, a, s') {
      v := PublishRefines(s, a, s');
    } else if NextHandOver(s, a, s') {
      v := HandOverRefines(s, a, s');
    } else if NextWriter(s, a, s') {
      v := WriterRefines(s, a, s');
    } else if NextForced(s, a, s') {
      v := ForcedRefines(s, a, s');
    } else {
      if NextAppender(s, a, s') {
        RecordMovesNothing(s, a, s');
      } else if NextWait(s, a, s') {
        WaitMovesNothing(s, a, s');
      } else if NextManager(s, a, s') {
        ManagerMovesNothing(s, a, s');
      } else {
        UpdateMovesNothing(s, a, s');
      }
      v := Stay;
    }
  }
}
