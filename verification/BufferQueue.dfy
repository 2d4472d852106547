/** `BufferQueue`: one current buffer that appends fill, a ready list the worker drains and a free
    list it recycles into. Each public method is one atomic step. Buffers are held as values: a
    `std::unique_ptr` has one owner, so moving the pointer and moving the value are the same. */
module BufferQueues {
  import opened DataBuffers
  import opened Wrappers

  datatype Options = Options(bufferSize: nat, baseFreeLimit: nat, maxTotalBuffers: nat, maxAdaptiveFreeLimit: nat)

  function Payloads(bufs: seq<Buf>): seq<string> {
    if bufs == [] then [] else bufs[0].payloads + Payloads(bufs[1..])
  }

  lemma {:induction false} PayloadsAppend(a: seq<Buf>, b: seq<Buf>)
    ensures Payloads(a + b) == Payloads(a) + Payloads(b)
  {
    if a == [] {
      assert a + b == b;
    } else {
      assert (a + b)[1..] == a[1..] + b;
      PayloadsAppend(a[1..], b);
    }
  }

  function Min(a: nat, b: nat): nat { if a < b then a else b }
  function Max(a: nat, b: nat): nat { if a < b then b else a }

  /** How many buffers are free, and how many may stay so. */
  datatype Stock = Stock(free: nat, limit: nat)

  class BufferQueue {
    const options: Options

    var freeList: seq<Buf>
    var readyList: seq<Buf>
    var current: Buf
    var hasCurrentData: bool
    var currentFirstWriteTime: nat
    var usedBuffers: int
    var totalBuffers: int
    var adaptiveFreeLimit: nat
    var signaled: bool

    ghost var outside: nat               // buffers handed out by TakeReady, or in a method's hands
    ghost var accepted: seq<string>      // payloads of the successful appends, in order
    ghost var taken: seq<string>         // payloads handed out by TakeReady so far

    function Cap(): nat {
      if options.maxAdaptiveFreeLimit != 0 then options.maxAdaptiveFreeLimit else options.maxTotalBuffers
    }

    ghost function Stocked(): Stock
      reads this
    {
      Stock(|freeList|, adaptiveFreeLimit)
    }

    /** A buffer is taken for good; the limit grows by one, up to its cap, when none was free. */
    ghost function Used(s: Stock): Stock {
      if s.free > 0 then Stock(s.free - 1, s.limit)
      else Stock(0, if MayGrow(s.limit) then s.limit + 1 else s.limit)
    }

    /** The cap is the adaptive one, or without it that on all buffers, or none. */
    predicate MayGrow(limit: nat) {
      if options.maxAdaptiveFreeLimit != 0 then limit < options.maxAdaptiveFreeLimit
      else options.maxTotalBuffers == 0 || limit < options.maxTotalBuffers
    }

    /** A buffer is taken and given back: one is free at least, the limit comes down to what is free
        but not below its base, and no more stay free than it allows. */
    ghost function Returned(s: Stock): Stock {
      var limit := Max(options.baseFreeLimit, Min(s.limit, Max(1, s.free)));
      Stock(Min(Max(1, s.free), limit), limit)
    }

    /** The counters say where the buffers are, and the limits hold. */
    ghost predicate Counted()
      reads this
    {
      && totalBuffers == |freeList| + |readyList| + 1 + outside
      && usedBuffers == totalBuffers - |freeList|
      && (options.maxTotalBuffers != 0 ==> totalBuffers <= Max(1, options.maxTotalBuffers))
      && options.baseFreeLimit <= adaptiveFreeLimit
      && (Cap() != 0 ==> adaptiveFreeLimit <= Max(options.baseFreeLimit, Cap()))
    }

    /** First in, first out, in whole appends. */
    ghost predicate InOrder()
      reads this
    {
      accepted == taken + Payloads(readyList) + current.payloads
    }

    ghost predicate FreeClean()
      reads this
    {
      forall i :: 0 <= i < |freeList| ==> freeList[i] == EMPTY
    }

    ghost predicate Shaped()
      reads this
    {
      && FreeClean()
      && (forall i :: 0 <= i < |readyList| ==> readyList[i].payloads != [])
      && current.Size() <= options.bufferSize
      && (current.Size() == 0 <==> current.payloads == [])
      && (signaled <==> readyList != [])
      && (hasCurrentData <==> current.payloads != [])
      && (hasCurrentData ==> currentFirstWriteTime == current.firstWriteTime)
    }

    ghost predicate Valid()
      reads this
    {
      Counted() && InOrder() && Shaped()
    }

    constructor (options: Options)
      ensures Valid() && this.options == options
      ensures accepted == [] && taken == [] && freeList == [] && readyList == [] && outside == 0
    {
      this.options := options;
      current := EMPTY;
      freeList, readyList := [], [];
      hasCurrentData, currentFirstWriteTime := false, 0;
      usedBuffers, totalBuffers := 1, 1;
      adaptiveFreeLimit := options.baseFreeLimit;
      signaled := false;
      outside, accepted, taken := 0, [], [];
    }

    // ---- private helpers ----

    method TryTakeFreeBuffer() returns (buffer: Option<Buf>)
      requires Valid()
      modifies this`freeList, this`usedBuffers, this`outside
      ensures Valid()
      ensures buffer.None? <==> old(freeList) == []
      ensures buffer.None? ==> unchanged(this)
      ensures buffer.Some? ==>
        buffer.value == EMPTY && freeList == old(freeList)[1..] && outside == old(outside) + 1
    {
      if freeList == [] {
        return None;
      }
      buffer := Some(freeList[0]);
      freeList := freeList[1..];
      usedBuffers := usedBuffers + 1;
      outside := outside + 1;
    }

    method TryCreateBuffer() returns (buffer: Option<Buf>)
      requires Valid()
      modifies this`totalBuffers, this`usedBuffers, this`outside
      ensures Valid()
      ensures buffer.None? <==> options.maxTotalBuffers != 0 && old(totalBuffers) >= options.maxTotalBuffers
      ensures buffer.None? ==> unchanged(this)
      ensures buffer.Some? ==>
        buffer.value == EMPTY && totalBuffers == old(totalBuffers) + 1 && outside == old(outside) + 1
    {
      if options.maxTotalBuffers != 0 && totalBuffers >= options.maxTotalBuffers {
        return None;
      }
      totalBuffers := totalBuffers + 1;
      usedBuffers := usedBuffers + 1;
      outside := outside + 1;
      buffer := Some(EMPTY);
    }

    /** A free buffer if there is one, else a new one if the limit allows it. */
    method TakeReplacement() returns (buffer: Option<Buf>, allocatedBecauseNoFree: bool)
      requires Valid()
      modifies this`freeList, this`totalBuffers, this`usedBuffers, this`outside
      ensures Valid()
      ensures buffer.Some? <==> CanReplace(old(|freeList|), old(totalBuffers))
      ensures buffer.None? ==> unchanged(this)
      ensures buffer.Some? ==> buffer.value == EMPTY && outside == old(outside) + 1
      ensures |freeList| == if old(freeList) == [] then 0 else |old(freeList)| - 1
      ensures allocatedBecauseNoFree <==> buffer.Some? && old(freeList) == []
    {
      buffer := TryTakeFreeBuffer();
      allocatedBecauseNoFree := false;
      if buffer.None? {
        buffer := TryCreateBuffer();
        allocatedBecauseNoFree := buffer.Some?;
      }
    }

    predicate CanReplace(free: nat, total: int) {
      free > 0 || options.maxTotalBuffers == 0 || total < options.maxTotalBuffers
    }

    /** Lowers the adaptive limit towards its base as far as the free list allows, then drops the
        free buffers beyond it. */
    method DecayFreeLocked()
      requires Counted() && FreeClean()
      modifies this`freeList, this`totalBuffers, this`adaptiveFreeLimit
      ensures Counted() && FreeClean()
      ensures adaptiveFreeLimit == Max(options.baseFreeLimit, Min(old(adaptiveFreeLimit), |old(freeList)|))
      ensures |freeList| == Min(|old(freeList)|, adaptiveFreeLimit)
    {
      while adaptiveFreeLimit > options.baseFreeLimit && |freeList| <= adaptiveFreeLimit - 1
        invariant Counted() && freeList == old(freeList) && totalBuffers == old(totalBuffers)
        invariant adaptiveFreeLimit <= old(adaptiveFreeLimit)
        invariant adaptiveFreeLimit < old(adaptiveFreeLimit) ==> |freeList| <= adaptiveFreeLimit
      {
        adaptiveFreeLimit := adaptiveFreeLimit - 1;
      }
      while |freeList| > adaptiveFreeLimit
        invariant Counted() && FreeClean() && |freeList| <= |old(freeList)|
        invariant adaptiveFreeLimit == Max(options.baseFreeLimit, Min(old(adaptiveFreeLimit), |old(freeList)|))
        invariant |freeList| < |old(freeList)| ==> adaptiveFreeLimit <= |freeList|
      {
        freeList := freeList[1..];
        totalBuffers := totalBuffers - 1;
      }
    }

    method ReleaseBuffer()
      requires Counted() && FreeClean() && outside > 0
      modifies this`freeList, this`usedBuffers, this`totalBuffers, this`adaptiveFreeLimit, this`outside
      ensures Counted() && FreeClean() && outside == old(outside) - 1
      ensures var n := |old(freeList)| + 1;
        && adaptiveFreeLimit == Max(options.baseFreeLimit, Min(old(adaptiveFreeLimit), n))
        && |freeList| == Min(n, adaptiveFreeLimit)
    {
      freeList := freeList + [EMPTY];
      usedBuffers := usedBuffers - 1;
      outside := outside - 1;
      DecayFreeLocked();
    }

    ghost function GrownBy(s: Stock, noneFree: bool): Stock {
      if noneFree && (Cap() == 0 || s.limit < Cap()) then s.(limit := s.limit + 1) else s
    }

    method MaybeGrowAdaptive(allocatedBecauseNoFree: bool)
      requires Counted()
      modifies this`adaptiveFreeLimit
      ensures Counted()
      ensures Stocked() == GrownBy(old(Stocked()), allocatedBecauseNoFree)
    {
      if !allocatedBecauseNoFree {
        return;
      }
      var cap := 0;
      if options.maxAdaptiveFreeLimit != 0 {
        cap := options.maxAdaptiveFreeLimit;
      } else if options.maxTotalBuffers != 0 {
        cap := options.maxTotalBuffers;
      }
      if cap != 0 && adaptiveFreeLimit >= cap {
        return;
      }
      adaptiveFreeLimit := adaptiveFreeLimit + 1;
    }

    /** Puts a buffer behind the ready list, unless it is empty. */
    method EnqueueReady(buffer: Buf) returns (needSignal: bool)
      requires Counted() && FreeClean() && outside > 0
      modifies this`readyList, this`signaled, this`outside, this`freeList, this`usedBuffers,
               this`totalBuffers, this`adaptiveFreeLimit
      ensures Counted() && FreeClean() && outside == old(outside) - 1
      ensures buffer.Size() == 0 ==> readyList == old(readyList) && signaled == old(signaled) && !needSignal
      ensures buffer.Size() != 0 ==>
        readyList == old(readyList) + [buffer] && signaled && (needSignal <==> !old(signaled))
      ensures buffer.Size() != 0 ==> Stocked() == old(Stocked())
    {
      needSignal := false;
      if buffer.Size() == 0 {
        ReleaseBuffer();
        return;
      }
      readyList := readyList + [buffer];
      outside := outside - 1;
      if !signaled {
        signaled := true;
        needSignal := true;
      }
    }

    method MoveToReady(full: Buf, allocatedBecauseNoFree: bool) returns (needSignal: bool)
      requires Counted() && FreeClean() && outside > 0 && full.Size() != 0
      modifies this`readyList, this`signaled, this`outside, this`freeList, this`usedBuffers,
               this`totalBuffers, this`adaptiveFreeLimit
      ensures Counted() && FreeClean() && outside == old(outside) - 1
      ensures readyList == old(readyList) + [full] && signaled && (needSignal <==> !old(signaled))
      ensures Payloads(readyList) == Payloads(old(readyList)) + full.payloads
      ensures Stocked() == GrownBy(old(Stocked()), allocatedBecauseNoFree)
    {
      MaybeGrowAdaptive(allocatedBecauseNoFree);
      PayloadsAppend(readyList, [full]);
      assert Payloads([full]) == full.payloads;
      needSignal := EnqueueReady(full);
    }

    /** A buffer with one more payload; the first one brings its time. */
    function Filled(b: Buf, p: string, time: nat): (r: Buf)
      ensures r.payloads == b.payloads + [p]
      ensures r.firstWriteTime == if b.Size() == 0 then time else b.firstWriteTime
    {
      Appended(if b.Size() == 0 then b.(firstWriteTime := time) else b, p)
    }

    method FillCurrent(p: string, firstWriteTime: nat) returns (firstData: bool)
      requires Valid() && p != [] && current.Size() + |p| <= options.bufferSize
      modifies this`current, this`currentFirstWriteTime, this`hasCurrentData, this`accepted
      ensures Valid() && accepted == old(accepted) + [p]
      ensures current == Filled(old(current), p, firstWriteTime)
      ensures firstData <==> old(current).payloads == []
    {
      firstData := current.Size() == 0;
      if firstData {
        current := current.(firstWriteTime := firstWriteTime);
        currentFirstWriteTime := firstWriteTime;
        hasCurrentData := true;
      }
      current := Appended(current, p);
      accepted := accepted + [p];
    }

    /** The payload starts a new current buffer; the old one goes to the ready list. */
    method ReplaceCurrent(replacement: Buf, p: string, firstWriteTime: nat, allocatedBecauseNoFree: bool)
      returns (needSignal: bool)
      requires Valid() && outside > 0 && current.Size() != 0
      requires replacement == EMPTY && 0 < |p| <= options.bufferSize
      modifies this
      ensures Valid() && taken == old(taken) && outside == old(outside) - 1
      ensures accepted == old(accepted) + [p] && readyList == old(readyList) + [old(current)]
      ensures current == Filled(EMPTY, p, firstWriteTime)
      ensures signaled && (needSignal <==> !old(signaled))
      ensures Stocked() == GrownBy(old(Stocked()), allocatedBecauseNoFree)
    {
      var readyBuffer := current;
      current := Appended(replacement.(firstWriteTime := firstWriteTime), p);
      currentFirstWriteTime := firstWriteTime;
      hasCurrentData := true;
      accepted := accepted + [p];
      needSignal := MoveToReady(readyBuffer, allocatedBecauseNoFree);
    }

    // ---- the public interface ----

    predicate FitsCurrent(p: string)
      reads this
    {
      p == [] || current.Size() + |p| <= options.bufferSize
    }

    /** Either the whole payload goes in, at the end, or no queued byte changes. It is refused exactly
        when it fits neither the current buffer nor a replacement that can be had. */
    method Append(p: string, firstWriteTime: nat) returns (ok: bool, needSignal: bool, firstData: bool)
      requires Valid()
      modifies this
      ensures Valid()
      ensures taken == old(taken) && outside == old(outside)
      ensures accepted == if ok then old(accepted) + (if p == [] then [] else [p]) else old(accepted)
      ensures ok <==>
        || old(FitsCurrent(p))
        || (|p| <= options.bufferSize && CanReplace(old(|freeList|), old(totalBuffers)))
      ensures !ok || p == [] ==> readyList == old(readyList) && current == old(current)
      ensures needSignal <==> signaled && !old(signaled)
      ensures firstData <==> ok && p != [] && current.payloads == [p]
      ensures old(FitsCurrent(p)) ==>
        readyList == old(readyList) && current == if p == [] then old(current) else Filled(old(current), p, firstWriteTime)
      ensures ok && !old(FitsCurrent(p)) ==>
        readyList == old(readyList) + [old(current)] && current == Filled(EMPTY, p, firstWriteTime)
      ensures Stocked() == if old(FitsCurrent(p)) || !CanReplace(old(|freeList|), old(totalBuffers)) then old(Stocked())
                           else if ok then Used(old(Stocked())) else Returned(old(Stocked()))
    {
      ok, needSignal, firstData := true, false, false;
      if p == [] {
        return;
      }
      if current.Size() + |p| <= options.bufferSize {
        firstData := FillCurrent(p, firstWriteTime);
        return;
      }
      var replacement, allocatedBecauseNoFree := TakeReplacement();
      if replacement.None? {
        ok := false;
        return;
      }
      if |p| > options.bufferSize {
        ReleaseBuffer();
        ok := false;
        return;
      }
      needSignal := ReplaceCurrent(replacement.value, p, firstWriteTime, allocatedBecauseNoFree);
      firstData := true;
    }

    /** Moves the current buffer to the ready list. Fails exactly when it holds nothing or cannot be
        replaced; the bytes queued stay the same either way. */
    method PublishCurrent() returns (ok: bool, needSignal: bool)
      requires Valid()
      modifies this
      ensures Valid()
      ensures taken == old(taken) && outside == old(outside) && accepted == old(accepted)
      ensures ok <==> old(current).payloads != [] && CanReplace(old(|freeList|), old(totalBuffers))
      ensures ok ==> readyList == old(readyList) + [old(current)] && current == EMPTY
      ensures !ok ==> readyList == old(readyList) && current == old(current)
      ensures needSignal <==> signaled && !old(signaled)
      ensures Stocked() == if !CanReplace(old(|freeList|), old(totalBuffers)) then old(Stocked())
                           else if ok then Used(old(Stocked())) else Returned(old(Stocked()))
    {
      ok, needSignal := false, false;
      var replacement, allocatedBecauseNoFree := TakeReplacement();
      if replacement.None? {
        return;
      }
      if current.Size() == 0 {
        ReleaseBuffer();
        return;
      }
      var readyBuffer := current;
      current := replacement.value;
      currentFirstWriteTime := 0;
      hasCurrentData := false;
      needSignal := MoveToReady(readyBuffer, allocatedBecauseNoFree);
      ok := true;
    }

    method DrainReady() returns (out: seq<Buf>)
      modifies this`readyList
      ensures out == old(readyList) && readyList == []
    {
      out := [];
      while readyList != []
        invariant out + readyList == old(readyList)
        decreases |readyList|
      {
        out := out + [readyList[0]];
        readyList := readyList[1..];
      }
      assert out == old(readyList);
    }

    /** Hands the whole ready list to the worker, oldest buffer first. */
    method TakeReady() returns (out: seq<Buf>, some: bool)
      requires Valid()
      modifies this`readyList, this`signaled, this`outside, this`taken
      ensures Valid()
      ensures out == old(readyList) && readyList == [] && !signaled
      ensures some <==> out != []
      ensures taken == old(taken) + Payloads(out) && outside == old(outside) + |out|
    {
      if readyList == [] {
        signaled := false;
        return [], false;
      }
      out := DrainReady();
      outside := outside + |out|;
      taken := taken + Payloads(out);
      signaled := false;
      some := true;
    }

    /** Takes buffers back onto the free list, emptied. */
    method Recycle(bufs: seq<Buf>)
      requires Valid() && |bufs| <= outside
      modifies this`freeList, this`usedBuffers, this`outside
      ensures Valid()
      ensures |freeList| == |old(freeList)| + |bufs| && outside == old(outside) - |bufs|
    {
      for i := 0 to |bufs|
        invariant Valid() && outside == old(outside) - i && |freeList| == |old(freeList)| + i
      {
        freeList := freeList + [EMPTY];
        usedBuffers := usedBuffers - 1;
        outside := outside - 1;
      }
    }

    method TrimFreeBuffersIfIdle()
      requires Valid()
      modifies this`freeList, this`totalBuffers, this`adaptiveFreeLimit
      ensures Valid()
      ensures |freeList| <= adaptiveFreeLimit
      ensures adaptiveFreeLimit == Max(options.baseFreeLimit, Min(old(adaptiveFreeLimit), |old(freeList)|))
    {
      DecayFreeLocked();
    }
  }
}
