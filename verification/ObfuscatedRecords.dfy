/** The obfuscated stream: each record behind a header of signature, length and nonce, its bytes
    masked with the key stream of that nonce. */
module ObfuscatedRecords {
  import opened ChaCha20
  import opened TextRecords
  import opened Wrappers

  const LOGOBF_SIGNATURE: nat := 0xA55A
  const LOGOBF_NONCE_BYTES: nat := 12
  const LOGOBF_HEADER_BYTES: nat := 2 + 2 + LOGOBF_NONCE_BYTES
  const MAX_RECORD: nat := 0xFFFF

  // Nonces

  function Nonce(salt: nat, counter: nat): (r: seq<Byte>)
    ensures |r| == LOGOBF_NONCE_BYTES
  {
    StoreLe(salt, 4) + StoreLe(counter, 8)
  }

  /** The first 2^64 nonces of a generator differ. */
  lemma NoncesDiffer(salt: nat, a: nat, b: nat)
    requires a < 0x1_0000_0000_0000_0000 && b < 0x1_0000_0000_0000_0000 && a != b
    ensures Nonce(salt, a) != Nonce(salt, b)
  {
    assert Power256(4) == 0x1_0000_0000;
    assert Power256(8) == 0x1_0000_0000_0000_0000;
    LoadOfStore(a, 8);
    LoadOfStore(b, 8);
    assert Nonce(salt, a)[4..] == StoreLe(a, 8) && Nonce(salt, b)[4..] == StoreLe(b, 8);
  }

  /** A nonce is the salt in four bytes and the counter in eight. */
  lemma NonceReadsBack(salt: nat, counter: nat)
    requires salt < 0x1_0000_0000 && counter < 0x1_0000_0000_0000_0000
    ensures LoadLe(Nonce(salt, counter)[..4]) == salt && LoadLe(Nonce(salt, counter)[4..]) == counter
  {
    assert Power256(4) == 0x1_0000_0000;
    assert Power256(8) == 0x1_0000_0000_0000_0000;
    LoadOfStore(salt, 4);
    LoadOfStore(counter, 8);
    assert Nonce(salt, counter)[..4] == StoreLe(salt, 4) && Nonce(salt, counter)[4..] == StoreLe(counter, 8);
  }

  class NonceGen {
    const salt: nat
    var counter: nat

    constructor (salt: nat)
      requires salt < 0x1_0000_0000
      ensures this.salt == salt && counter == 0
    {
      this.salt := salt;
      counter := 0;
    }

    method Next() returns (nonce: seq<Byte>)
      modifies this`counter
      ensures nonce == Nonce(salt, old(counter)) && counter == After(old(counter))
    {
      var c := counter;
      counter := After(counter);
      nonce := StoreLe(salt, 4);
      nonce := nonce + StoreLe(c, 8);
    }
  }

  /** Counting in 64 bits. */
  function After(counter: nat): nat {
    if counter + 1 == 0x1_0000_0000_0000_0000 then 0 else counter + 1
  }

  /** The counter after n records. */
  function Counter(n: nat): nat {
    if n == 0 then 0 else After(Counter(n - 1))
  }

  lemma {:induction false} CounterCounts(n: nat)
    requires n < 0x1_0000_0000_0000_0000
    ensures Counter(n) == n
  {
    if n > 0 {
      CounterCounts(n - 1);
    }
  }

  /** Among the first 2^64 records of a stream no two share a nonce. */
  lemma RecordNoncesDiffer(salt: nat, i: nat, j: nat)
    requires i < j < 0x1_0000_0000_0000_0000
    ensures Nonce(salt, Counter(i)) != Nonce(salt, Counter(j))
  {
    CounterCounts(i);
    CounterCounts(j);
    NoncesDiffer(salt, i, j);
  }

  // One record

  function Header(len: nat, nonce: seq<Byte>): (r: seq<Byte>)
    requires |nonce| == LOGOBF_NONCE_BYTES
    ensures |r| == LOGOBF_HEADER_BYTES
  {
    StoreLe(LOGOBF_SIGNATURE, 2) + StoreLe(len, 2) + nonce
  }

  function Framed(key: seq<Byte>, nonce: seq<Byte>, plaintext: seq<Byte>): (r: seq<Byte>)
    requires |key| == 32 && |nonce| == LOGOBF_NONCE_BYTES
    ensures |r| == LOGOBF_HEADER_BYTES + |plaintext|
  {
    Header(|plaintext|, nonce) + Masked(key, nonce, 1, plaintext)
  }

  /** A record at the front of `input`: its text and the bytes behind it. */
  function Opened(key: seq<Byte>, input: seq<Byte>): (r: Option<(seq<Byte>, seq<Byte>)>)
    requires |key| == 32
    ensures r.Some? ==> |r.value.1| < |input|
  {
    if |input| < LOGOBF_HEADER_BYTES then None
    else
      var len := LoadLe(input[2..4]);
      if |input| < LOGOBF_HEADER_BYTES + len || LoadLe(input[..2]) != LOGOBF_SIGNATURE then None
      else Some((Masked(key, input[4..LOGOBF_HEADER_BYTES], 1, input[LOGOBF_HEADER_BYTES..LOGOBF_HEADER_BYTES + len]),
                 input[LOGOBF_HEADER_BYTES + len..]))
  }

  lemma HeaderReadsBack(len: nat, nonce: seq<Byte>)
    requires len <= MAX_RECORD && |nonce| == LOGOBF_NONCE_BYTES
    ensures var h := Header(len, nonce);
      LoadLe(h[..2]) == LOGOBF_SIGNATURE && LoadLe(h[2..4]) == len && h[4..] == nonce
  {
    var h := Header(len, nonce);
    assert Power256(2) == 0x1_0000;
    LoadOfStore(LOGOBF_SIGNATURE, 2);
    LoadOfStore(len, 2);
    assert h[..2] == StoreLe(LOGOBF_SIGNATURE, 2) && h[2..4] == StoreLe(len, 2);
  }

  /** Framing tells where a record ends, and the mask is undone. */
  lemma OpenedUndoesFramed(key: seq<Byte>, nonce: seq<Byte>, plaintext: seq<Byte>, rest: seq<Byte>)
    requires |key| == 32 && |nonce| == LOGOBF_NONCE_BYTES && |plaintext| <= MAX_RECORD
    ensures Opened(key, Framed(key, nonce, plaintext) + rest) == Some((plaintext, rest))
  {
    var h, m := Header(|plaintext|, nonce), Masked(key, nonce, 1, plaintext);
    var input := Framed(key, nonce, plaintext) + rest;
    assert input == h + (m + rest);
    HeaderReadsBack(|plaintext|, nonce);
    assert input[..2] == h[..2] && input[2..4] == h[2..4] && input[4..LOGOBF_HEADER_BYTES] == h[4..];
    assert input[LOGOBF_HEADER_BYTES..LOGOBF_HEADER_BYTES + |plaintext|] == m;
    assert input[LOGOBF_HEADER_BYTES + |plaintext|..] == rest;
    MaskUndoesMask(ChaChaBlocks(key, nonce), 1, plaintext);
  }

  /** The header byte by byte, and each byte of the text masked with its own byte of the key stream,
      which starts at block 1. */
  lemma FramedByBytes(key: seq<Byte>, nonce: seq<Byte>, plaintext: seq<Byte>, i: nat)
    requires |key| == 32 && |nonce| == LOGOBF_NONCE_BYTES && |plaintext| <= MAX_RECORD
    ensures var r := Framed(key, nonce, plaintext);
      && r[0] == 0x5A && r[1] == 0xA5
      && r[2] as int == |plaintext| % 256 && r[3] as int == |plaintext| / 256
      && r[4..16] == nonce
      && (i < |plaintext| ==>
            r[16 + i] == Xor(plaintext[i], Block(key, (1 + i / 64) % 0x1_0000_0000, nonce)[i % 64]))
  {
    var h := Header(|plaintext|, nonce);
    assert StoreLe(LOGOBF_SIGNATURE, 2) == [0x5A, 0xA5];
    assert StoreLe(|plaintext|, 2) == [|plaintext| % 256, |plaintext| / 256];
    assert Framed(key, nonce, plaintext)[4..16] == h[4..16] == nonce;
    var masked := Masked(key, nonce, 1, plaintext);
    if i < |plaintext| {
      assert masked[i] == Xor(plaintext[i], KeyStream(ChaChaBlocks(key, nonce), 1, i));
    }
  }

  lemma HeaderFromBytes(input: seq<Byte>)
    requires |input| >= LOGOBF_HEADER_BYTES && LoadLe(input[..2]) == LOGOBF_SIGNATURE
    ensures input[..LOGOBF_HEADER_BYTES] == Header(LoadLe(input[2..4]), input[4..LOGOBF_HEADER_BYTES])
  {
    StoreOfLoad(input[..2]);
    StoreOfLoad(input[2..4]);
    assert input[..LOGOBF_HEADER_BYTES] == input[..2] + input[2..4] + input[4..LOGOBF_HEADER_BYTES];
  }

  lemma TwoBytesFit(bytes: seq<Byte>)
    requires |bytes| == 2
    ensures LoadLe(bytes) <= MAX_RECORD
  {
    assert LoadLe(bytes[1..]) == bytes[1] as int;
  }

  /** Only a framed record is opened, and as the text that was framed. */
  lemma OpenedOnlyFramed(key: seq<Byte>, input: seq<Byte>) returns (nonce: seq<Byte>)
    requires |key| == 32 && Opened(key, input).Some?
    ensures |nonce| == LOGOBF_NONCE_BYTES
    ensures var r := Opened(key, input).value; |r.0| <= MAX_RECORD && input == Framed(key, nonce, r.0) + r.1
  {
    nonce := input[4..LOGOBF_HEADER_BYTES];
    var end := LOGOBF_HEADER_BYTES + LoadLe(input[2..4]);
    var masked := input[LOGOBF_HEADER_BYTES..end];
    TwoBytesFit(input[2..4]);
    HeaderFromBytes(input);
    MaskUndoesMask(ChaChaBlocks(key, nonce), 1, masked);
    assert input == input[..LOGOBF_HEADER_BYTES] + masked + input[end..];
  }

  method LocalObfEncryptRecord(key: seq<Byte>, gen: NonceGen, plaintext: seq<Byte>, cap: nat)
    returns (record: Option<seq<Byte>>)
    requires |key| == 32
    modifies gen`counter
    ensures record.Some? <==> |plaintext| <= MAX_RECORD && LOGOBF_HEADER_BYTES + |plaintext| <= cap
    ensures record.Some? ==> record.value == Framed(key, Nonce(gen.salt, old(gen.counter)), plaintext)
    ensures gen.counter == if record.Some? then After(old(gen.counter)) else old(gen.counter)
  {
    if |plaintext| > MAX_RECORD || cap < LOGOBF_HEADER_BYTES + |plaintext| {
      return None;
    }
    var header := StoreLe(LOGOBF_SIGNATURE, 2) + StoreLe(|plaintext|, 2);
    var nonce := gen.Next();
    var ciphertext := ChaCha20Xor(key, nonce, 1, plaintext);
    record := Some(header + nonce + ciphertext);
  }

  method LocalObfDecryptRecord(key: seq<Byte>, record: seq<Byte>, cap: nat) returns (plaintext: Option<seq<Byte>>)
    requires |key| == 32
    ensures plaintext.Some? <==> Opened(key, record).Some? && LoadLe(record[2..4]) <= cap
    ensures plaintext.Some? ==> plaintext.value == Opened(key, record).value.0
  {
    if |record| < LOGOBF_HEADER_BYTES {
      return None;
    }
    var signature, len := LoadLe(record[..2]), LoadLe(record[2..4]);
    if signature != LOGOBF_SIGNATURE {
      return None;
    }
    var needed := LOGOBF_HEADER_BYTES + len;
    if |record| < needed || cap < len {
      return None;
    }
    var text := ChaCha20Xor(key, record[4..LOGOBF_HEADER_BYTES], 1, record[LOGOBF_HEADER_BYTES..needed]);
    plaintext := Some(text);
  }

  // Whole streams

  /** The records from the i-th on, each with the nonce of its number. */
  function Stream(key: seq<Byte>, salt: nat, records: seq<seq<Byte>>, i: nat := 0): seq<Byte>
    requires |key| == 32
    decreases |records| - i
  {
    if i >= |records| then []
    else Framed(key, Nonce(salt, Counter(i)), records[i]) + Stream(key, salt, records, i + 1)
  }

  function Before(first: seq<Byte>, rest: Option<seq<Byte>>): Option<seq<Byte>> {
    if rest.None? then None else Some(first + rest.value)
  }

  /** The text of a stream; None when a record is cut short or has no signature. */
  function Unstream(key: seq<Byte>, input: seq<Byte>): Option<seq<Byte>>
    requires |key| == 32
    decreases |input|
  {
    if input == [] then Some([])
    else
      var record := Opened(key, input);
      if record.None? then None else Before(record.value.0, Unstream(key, record.value.1))
  }

  predicate AllFit(records: seq<seq<Byte>>) {
    forall i :: 0 <= i < |records| ==> |records[i]| <= MAX_RECORD
  }

  function TextFrom(records: seq<seq<Byte>>, i: nat := 0): seq<Byte>
    decreases |records| - i
  {
    if i >= |records| then [] else records[i] + TextFrom(records, i + 1)
  }

  lemma {:induction false} TextFromIsRest(records: seq<seq<Byte>>, i: nat)
    requires i <= |records|
    ensures Flattened(records[..i]) + TextFrom(records, i) == Flattened(records)
    decreases |records| - i
  {
    if i == |records| {
      assert records[..i] == records;
    } else {
      TextFromIsRest(records, i + 1);
      assert records[..i + 1] == records[..i] + [records[i]];
      FlattenedPush(records[..i], records[i]);
      Regroup(Flattened(records[..i]), records[i], TextFrom(records, i + 1));
    }
  }

  lemma Regroup<T>(a: seq<T>, b: seq<T>, c: seq<T>)
    ensures a + b + c == a + (b + c)
  {
  }

  /** Every stream of records that fit is read back, record by record. */
  lemma {:induction false} UnstreamUndoesStream(key: seq<Byte>, salt: nat, records: seq<seq<Byte>>, i: nat)
    requires |key| == 32 && AllFit(records)
    ensures Unstream(key, Stream(key, salt, records, i)) == Some(TextFrom(records, i))
    decreases |records| - i
  {
    if i < |records| {
      OpenedUndoesFramed(key, Nonce(salt, Counter(i)), records[i], Stream(key, salt, records, i + 1));
      UnstreamUndoesStream(key, salt, records, i + 1);
    }
  }

  /** Obfuscating a text in whatever records and deobfuscating the stream gives the text back. */
  lemma TextComesBack(key: seq<Byte>, salt: nat, records: seq<seq<Byte>>)
    requires |key| == 32 && AllFit(records)
    ensures Unstream(key, Stream(key, salt, records)) == Some(Flattened(records))
  {
    UnstreamUndoesStream(key, salt, records, 0);
    TextFromIsRest(records, 0);
    assert Flattened(records[..0]) + TextFrom(records) == TextFrom(records);
  }

  /** A text and the nonce it is masked with. */
  datatype Part = Part(nonce: seq<Byte>, text: seq<Byte>)

  predicate Sound(parts: seq<Part>) {
    forall i :: 0 <= i < |parts| ==> |parts[i].nonce| == LOGOBF_NONCE_BYTES && |parts[i].text| <= MAX_RECORD
  }

  function Sealed(key: seq<Byte>, parts: seq<Part>): seq<Byte>
    requires |key| == 32 && Sound(parts)
  {
    if parts == [] then [] else Framed(key, parts[0].nonce, parts[0].text) + Sealed(key, parts[1..])
  }

  function Texts(parts: seq<Part>): seq<Byte> {
    if parts == [] then [] else parts[0].text + Texts(parts[1..])
  }

  /** Every sequence of framed records is read, whoever wrote it and with whatever nonces ... */
  lemma {:induction false} ReadsSealed(key: seq<Byte>, parts: seq<Part>)
    requires |key| == 32 && Sound(parts)
    ensures Unstream(key, Sealed(key, parts)) == Some(Texts(parts))
  {
    if parts != [] {
      OpenedUndoesFramed(key, parts[0].nonce, parts[0].text, Sealed(key, parts[1..]));
      ReadsSealed(key, parts[1..]);
    }
  }

  /** ... and nothing else is: what is read is a sequence of framed records to its last byte. */
  lemma {:induction false} ReadsOnlySealed(key: seq<Byte>, input: seq<Byte>) returns (parts: seq<Part>)
    requires |key| == 32 && Unstream(key, input).Some?
    ensures Sound(parts) && Sealed(key, parts) == input && Texts(parts) == Unstream(key, input).value
    decreases |input|
  {
    parts := [];
    if input != [] {
      var record := Opened(key, input).value;
      var nonce := OpenedOnlyFramed(key, input);
      var rest := ReadsOnlySealed(key, record.1);
      parts := [Part(nonce, record.0)] + rest;
      assert parts[1..] == rest;
    }
  }

  /** Where the i-th record of a stream begins. */
  function Offset(records: seq<seq<Byte>>, i: nat): nat
    requires i <= |records|
  {
    if i == 0 then 0 else Offset(records, i - 1) + LOGOBF_HEADER_BYTES + |records[i - 1]|
  }

  lemma {:induction false} StreamAt(key: seq<Byte>, salt: nat, records: seq<seq<Byte>>, i: nat)
    requires |key| == 32 && i <= |records|
    ensures var s := Stream(key, salt, records);
      Offset(records, i) <= |s| && s[Offset(records, i)..] == Stream(key, salt, records, i)
  {
    if i > 0 {
      StreamAt(key, salt, records, i - 1);
      var s, at := Stream(key, salt, records), Offset(records, i - 1);
      var f := Framed(key, Nonce(salt, Counter(i - 1)), records[i - 1]);
      assert s[at..][|f|..] == s[at + |f|..];
    }
  }

  /** The i-th record of a stream carries the i-th nonce, so no two of the first 2^64 records carry the
      same. */
  lemma StreamNonces(key: seq<Byte>, salt: nat, records: seq<seq<Byte>>, i: nat, j: nat)
    requires |key| == 32 && i < j < |records| && j < 0x1_0000_0000_0000_0000
    ensures var s := Stream(key, salt, records);
      var a, b := Offset(records, i), Offset(records, j);
      a + 16 <= |s| && b + 16 <= |s| && s[a + 4..a + 16] == Nonce(salt, i) && s[a + 4..a + 16] != s[b + 4..b + 16]
  {
    NonceInStream(key, salt, records, i);
    NonceInStream(key, salt, records, j);
    NoncesDiffer(salt, i, j);
  }

  lemma NonceInStream(key: seq<Byte>, salt: nat, records: seq<seq<Byte>>, i: nat)
    requires |key| == 32 && i < |records| && i < 0x1_0000_0000_0000_0000
    ensures var s, a := Stream(key, salt, records), Offset(records, i);
      a + 16 <= |s| && s[a + 4..a + 16] == Nonce(salt, i)
  {
    var s, a := Stream(key, salt, records), Offset(records, i);
    StreamAt(key, salt, records, i);
    CounterCounts(i);
    var f := Framed(key, Nonce(salt, i), records[i]);
    assert f[4..16] == Nonce(salt, i);
    assert s[a..][4..16] == s[a + 4..a + 16];
  }

  lemma StreamGrows(bytes: seq<Byte>, key: seq<Byte>, salt: nat, records: seq<seq<Byte>>, i: nat)
    requires |key| == 32 && i < |records|
    ensures bytes + Stream(key, salt, records, i)
         == bytes + Framed(key, Nonce(salt, Counter(i)), records[i]) + Stream(key, salt, records, i + 1)
  {
    Regroup(bytes, Framed(key, Nonce(salt, Counter(i)), records[i]), Stream(key, salt, records, i + 1));
  }

  method AppendEncryptedRecord(key: seq<Byte>, gen: NonceGen, records: seq<seq<Byte>>, i: nat, output: seq<Byte>)
    returns (r: Option<seq<Byte>>)
    requires |key| == 32 && i < |records| && gen.counter == Counter(i)
    modifies gen`counter
    ensures r.Some? <==> |records[i]| <= MAX_RECORD
    ensures r.Some? ==> gen.counter == Counter(i + 1)
    ensures r.Some? ==> r.value + Stream(key, gen.salt, records, i + 1) == output + Stream(key, gen.salt, records, i)
  {
    var record := LocalObfEncryptRecord(key, gen, records[i], LOGOBF_HEADER_BYTES + |records[i]|);
    if record.None? {
      return None;
    }
    StreamGrows(output, key, gen.salt, records, i);
    r := Some(output + record.value);
  }

  method EncryptAll(key: seq<Byte>, salt: nat, records: seq<seq<Byte>>) returns (output: Option<seq<Byte>>)
    requires |key| == 32 && salt < 0x1_0000_0000
    ensures output.Some? <==> AllFit(records)
    ensures output.Some? ==> output.value == Stream(key, salt, records)
  {
    EmptyFirst(Stream(key, salt, records));
    output := AppendRecords(key, salt, records, []);
    if output.Some? {
      EmptyLast(output.value);
    }
  }

  /** The loop over the records; the output grows by what the stream loses. */
  method AppendRecords(key: seq<Byte>, salt: nat, records: seq<seq<Byte>>, before: seq<Byte>)
    returns (output: Option<seq<Byte>>)
    requires |key| == 32 && salt < 0x1_0000_0000
    ensures output.Some? <==> AllFit(records)
    ensures output.Some? ==> output.value + Stream(key, salt, records, |records|) == before + Stream(key, salt, records)
  {
    var gen := new NonceGen(salt);
    var bytes := before;
    for i := 0 to |records|
      invariant gen.counter == Counter(i) && forall j :: 0 <= j < i ==> |records[j]| <= MAX_RECORD
      invariant bytes + Stream(key, salt, records, i) == before + Stream(key, salt, records)
    {
      var more := AppendEncryptedRecord(key, gen, records, i, bytes);
      if more.None? {
        return None;
      }
      bytes := more.value;
    }
    output := Some(bytes);
  }

  lemma EmptyFirst<T>(s: seq<T>)
    ensures [] + s == s
  {
  }

  lemma EmptyLast<T>(s: seq<T>)
    ensures s + [] == s
  {
  }

  /** Fails exactly when a record is too long; otherwise the stream holds the whole text. */
  method RunObfuscate(key: seq<Byte>, salt: nat, text: seq<Byte>, format: TextFormat, detected: TextFormat)
    returns (output: Option<seq<Byte>>, ghost records: seq<seq<Byte>>)
    requires |key| == 32 && salt < 0x1_0000_0000 && detected != Auto
    ensures Flattened(records) == text
    ensures AreRecordsOf(records, text, StartOf(if format == Auto then detected else format))
    ensures output.Some? <==> AllFit(records)
    ensures output.Some? ==> output.value == Stream(key, salt, records)
    ensures output.Some? ==> Unstream(key, output.value) == Some(text)
  {
    var parts := BuildRecords(text, format, detected);
    output := EncryptAll(key, salt, parts);
    records := parts;
    if output.Some? {
      TextComesBack(key, salt, parts);
    }
  }

  /** A record is opened alike with and without the bytes behind it. */
  lemma OpenedAlone(key: seq<Byte>, t: seq<Byte>)
    requires |key| == 32 && |t| >= LOGOBF_HEADER_BYTES && LOGOBF_HEADER_BYTES + LoadLe(t[2..4]) <= |t|
    ensures var n := LOGOBF_HEADER_BYTES + LoadLe(t[2..4]);
      Opened(key, t) == if Opened(key, t[..n]).None? then None else Some((Opened(key, t[..n]).value.0, t[n..]))
  {
    var n := LOGOBF_HEADER_BYTES + LoadLe(t[2..4]);
    var alone := t[..n];
    assert alone[..2] == t[..2] && alone[2..4] == t[2..4] && alone[4..16] == t[4..16] && alone[16..n] == t[16..n];
  }

  /** One round of the reading loop: the record at `pos` and the position behind it. */
  method DecryptAt(key: seq<Byte>, input: seq<Byte>, pos: nat) returns (plaintext: Option<seq<Byte>>, next: nat)
    requires |key| == 32 && pos < |input|
    ensures plaintext.None? <==> Opened(key, input[pos..]).None?
    ensures plaintext.Some? ==> pos < next <= |input|
    ensures plaintext.Some? ==> Opened(key, input[pos..]) == Some((plaintext.value, input[next..]))
  {
    next := pos;
    if |input| - pos < LOGOBF_HEADER_BYTES {
      return None, next;
    }
    ghost var t := input[pos..];
    assert t[2..4] == input[pos + 2..pos + 4];
    var len := LoadLe(input[pos + 2..pos + 4]);
    var recordSize := LOGOBF_HEADER_BYTES + len;
    if |input| - pos < recordSize {
      return None, next;
    }
    OpenedAlone(key, t);
    assert input[pos..pos + recordSize] == t[..recordSize] && t[..recordSize][2..4] == t[2..4];
    plaintext := LocalObfDecryptRecord(key, input[pos..pos + recordSize], len);
    next := pos + recordSize;
    assert t[recordSize..] == input[next..];
  }

  method RunDeobfuscate(key: seq<Byte>, input: seq<Byte>) returns (output: Option<seq<Byte>>)
    requires |key| == 32
    ensures output == Unstream(key, input)
  {
    var bytes: seq<Byte> := [];
    var pos := 0;
    ghost var spec := Unstream(key, input);
    assert input[0..] == input && (spec.Some? ==> [] + spec.value == spec.value);
    while pos < |input|
      invariant pos <= |input| && Before(bytes, Unstream(key, input[pos..])) == spec
    {
      var plaintext, next := DecryptAt(key, input, pos);
      if plaintext.None? {
        return None;
      }
      ghost var rest := Unstream(key, input[next..]);
      if rest.Some? {
        Regroup(bytes, plaintext.value, rest.value);
      }
      bytes := bytes + plaintext.value;
      pos := next;
    }
    assert bytes + [] == bytes;
    output := Some(bytes);
  }
}
