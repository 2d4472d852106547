/** `DataBuffer`: a fixed character array filled from the front with whole appends. */
module DataBuffers {

  function Concat(parts: seq<string>): string {
    if parts == [] then [] else parts[0] + Concat(parts[1..])
  }

  lemma {:induction false} ConcatAppend(a: seq<string>, b: seq<string>)
    ensures Concat(a + b) == Concat(a) + Concat(b)
  {
    if a == [] {
      assert a + b == b;
    } else {
      assert (a + b)[1..] == a[1..] + b;
      ConcatAppend(a[1..], b);
    }
  }

  /** A buffer's value: the appends it holds, oldest first, and the time of the first one. */
  datatype Buf = Buf(payloads: seq<string>, firstWriteTime: nat, seenOnSoftFlush: bool) {
    function Text(): string { Concat(payloads) }
    function Size(): nat { |Text()| }
  }

  const EMPTY := Buf([], 0, false)

  function Appended(b: Buf, p: string): (r: Buf)
    ensures r.Text() == b.Text() + p
  {
    ConcatAppend(b.payloads, [p]);
    b.(payloads := b.payloads + [p])
  }

  class DataBuffer {
    const data: array<char>           // its length is CapacityValue
    var size: nat
    var firstWriteTime: nat
    var seenOnSoftFlush: bool
    ghost var payloads: seq<string>   // where one append ends and the next begins

    ghost predicate Valid()
      reads this, data
    {
      size <= data.Length && data[..size] == Concat(payloads)
    }

    ghost function Value(): Buf
      reads this
    {
      Buf(payloads, firstWriteTime, seenOnSoftFlush)
    }

    constructor (capacity: nat)
      ensures Valid() && fresh(data) && data.Length == capacity && Value() == EMPTY
    {
      data := new char[capacity];
      size, firstWriteTime, seenOnSoftFlush := 0, 0, false;
      payloads := [];
    }

    method Reset()
      modifies this
      ensures Valid() && Value() == EMPTY
    {
      size, firstWriteTime, seenOnSoftFlush := 0, 0, false;
      payloads := [];
    }

    predicate CanAppend(cb: nat): (r: bool)
      requires Valid()
      reads this, data
      ensures r <==> Value().Size() + cb <= data.Length
    {
      assert |data[..size]| == size;
      cb <= data.Length - size
    }

    /** Copies `p` behind what is there; earlier appends keep their bytes. */
    method Append(p: string)
      requires Valid() && CanAppend(|p|)
      modifies this`size, this`payloads, data
      ensures Valid() && Value() == Appended(old(Value()), p)
      ensures data[..size] == old(data[..size]) + p
    {
      ghost var before := data[..size];
      forall i | 0 <= i < |p| {
        data[size + i] := p[i];
      }
      assert data[..size] == before;
      assert data[..size + |p|] == before + p;
      ConcatAppend(payloads, [p]);
      size := size + |p|;
      payloads := payloads + [p];
    }
  }
}
