/** The ChaCha20 mask of sections 2.1 to 2.4 of RFC 8439. */
module ChaCha20 {

  type Byte = b: int | 0 <= b < 256
  type Word = bv32

  // Little-endian numbers

  /** The lowest `n` bytes of a number, lowest first. */
  function StoreLe(v: nat, n: nat): (r: seq<Byte>)
    ensures |r| == n
  {
    if n == 0 then [] else [v % 256] + StoreLe(v / 256, n - 1)
  }

  function LoadLe(bytes: seq<Byte>): nat {
    if bytes == [] then 0 else bytes[0] + 256 * LoadLe(bytes[1..])
  }

  function Power256(n: nat): nat {
    if n == 0 then 1 else 256 * Power256(n - 1)
  }

  /** Storing loses exactly what does not fit. */
  lemma {:induction false} LoadOfStore(v: nat, n: nat)
    ensures v < Power256(n) ==> LoadLe(StoreLe(v, n)) == v
  {
    if n > 0 && v < Power256(n) {
      LoadOfStore(v / 256, n - 1);
    }
  }

  /** Loading loses nothing. */
  lemma {:induction false} StoreOfLoad(bytes: seq<Byte>)
    ensures StoreLe(LoadLe(bytes), |bytes|) == bytes
  {
    if bytes != [] {
      StoreOfLoad(bytes[1..]);
      assert LoadLe(bytes) / 256 == LoadLe(bytes[1..]);
    }
  }

  // The block function

  function Rotl32(v: Word, r: nat): Word
    requires 0 < r < 32
  {
    (v << r) | (v >> (32 - r))
  }

  /** Half a quarter round: two additions, exclusive ors and rotations. */
  function Half(a: Word, b: Word, c: Word, d: Word, r: nat, q: nat): (Word, Word, Word, Word)
    requires 0 < r < 32 && 0 < q < 32
  {
    var a1 := a + b;
    var d1 := Rotl32(d ^ a1, r);
    var c1 := c + d1;
    (a1, Rotl32(b ^ c1, q), c1, d1)
  }

  function Quarter(a: Word, b: Word, c: Word, d: Word): (Word, Word, Word, Word) {
    var h := Half(a, b, c, d, 16, 12);
    Half(h.0, h.1, h.2, h.3, 8, 7)
  }

  function QuarterAt(s: seq<Word>, i: nat, j: nat, k: nat, l: nat): (r: seq<Word>)
    requires |s| == 16 && i < j < k < 16 && l < 16 && l != i && l != j && l != k
    ensures |r| == 16
  {
    Placed(s, i, j, k, l, Quarter(s[i], s[j], s[k], s[l]))
  }

  function Placed<T>(s: seq<T>, i: nat, j: nat, k: nat, l: nat, q: (T, T, T, T)): (r: seq<T>)
    requires |s| == 16 && i < 16 && j < 16 && k < 16 && l < 16
    ensures |r| == 16
  {
    s[i := q.0][j := q.1][k := q.2][l := q.3]
  }

  function ColumnRound(s: seq<Word>): (r: seq<Word>)
    requires |s| == 16
    ensures |r| == 16
  {
    QuarterAt(QuarterAt(QuarterAt(QuarterAt(s, 0, 4, 8, 12), 1, 5, 9, 13), 2, 6, 10, 14), 3, 7, 11, 15)
  }

  function DiagonalRound(s: seq<Word>): (r: seq<Word>)
    requires |s| == 16
    ensures |r| == 16
  {
    QuarterAt(QuarterAt(QuarterAt(QuarterAt(s, 0, 5, 10, 15), 1, 6, 11, 12), 2, 7, 8, 13), 3, 4, 9, 14)
  }

  function DoubleRounds(s: seq<Word>, n: nat): (r: seq<Word>)
    requires |s| == 16
    ensures |r| == 16
  {
    if n == 0 then s else DiagonalRound(ColumnRound(DoubleRounds(s, n - 1)))
  }

  function LoadWord(bytes: seq<Byte>): Word
    requires |bytes| == 4
  {
    (LoadLe(bytes) % 0x1_0000_0000) as Word
  }

  /** Section 2.3 of RFC 8439: the constants, the key, the counter and the nonce. */
  function InitialState(key: seq<Byte>, counter: nat, nonce: seq<Byte>): (r: seq<Word>)
    requires |key| == 32 && |nonce| == 12
    ensures |r| == 16
  {
    [0x61707865, 0x3320646e, 0x79622d32, 0x6b206574]
    + seq(8, i requires 0 <= i < 8 => LoadWord(key[4 * i..4 * i + 4]))
    + [(counter % 0x1_0000_0000) as Word]
    + seq(3, i requires 0 <= i < 3 => LoadWord(nonce[4 * i..4 * i + 4]))
  }

  function Serialized(words: seq<Word>): (r: seq<Byte>)
    ensures |r| == 4 * |words|
  {
    if words == [] then [] else Serialized(words[..|words| - 1]) + StoreLe(words[|words| - 1] as nat, 4)
  }

  function Sum(a: seq<Word>, b: seq<Word>): (r: seq<Word>)
    requires |a| == |b|
    ensures |r| == |a|
  {
    seq(|a|, i requires 0 <= i < |a| => Plus(a[i], b[i]))
  }

  function Plus(a: Word, b: Word): Word {
    a + b
  }

  /** The `counter` wraps in 32 bits. */
  function Block(key: seq<Byte>, counter: nat, nonce: seq<Byte>): (r: seq<Byte>)
    requires |key| == 32 && |nonce| == 12
    ensures |r| == 64
  {
    var state := InitialState(key, counter, nonce);
    var work := DoubleRounds(state, 10);
    Serialized(Sum(work, state))
  }

  // The block function against the standard's description

  /** The test vector of section 2.1.1 of RFC 8439, by its two halves. */
  lemma QuarterVector()
    ensures Quarter(0x11111111, 0x01020304, 0x9b8d6f43, 0x01234567)
         == (0xea2a92f4, 0xcb1cf8ce, 0x4581472e, 0x5881c4bb)
  {
    assert Half(0x11111111, 0x01020304, 0x9b8d6f43, 0x01234567, 16, 12)
        == (0x12131415, 0xd8177edf, 0xecff8273, 0x51721330);
    assert Half(0x12131415, 0xd8177edf, 0xecff8273, 0x51721330, 8, 7)
        == (0xea2a92f4, 0xcb1cf8ce, 0x4581472e, 0x5881c4bb);
  }

  /** Column c of a state read as a matrix with rows of four words, and the diagonal that begins there. */
  function Column<T>(s: seq<T>, c: nat): (T, T, T, T)
    requires |s| == 16 && c < 4
  {
    (s[c], s[4 + c], s[8 + c], s[12 + c])
  }

  function Diagonal<T>(s: seq<T>, c: nat): (T, T, T, T)
    requires |s| == 16 && c < 4
  {
    (s[c], s[4 + (c + 1) % 4], s[8 + (c + 2) % 4], s[12 + (c + 3) % 4])
  }

  function QuarterOf(q: (Word, Word, Word, Word)): (Word, Word, Word, Word) {
    Quarter(q.0, q.1, q.2, q.3)
  }

  /** Four places filled one after the other: each column is what was placed there, and was untouched
      until then. */
  lemma ColumnsPlaced<T>(s: seq<T>, q0: (T, T, T, T), q1: (T, T, T, T), q2: (T, T, T, T), q3: (T, T, T, T))
    requires |s| == 16
    ensures var s1 := Placed(s, 0, 4, 8, 12, q0);
      var s2 := Placed(s1, 1, 5, 9, 13, q1);
      var s3 := Placed(s2, 2, 6, 10, 14, q2);
      var s4 := Placed(s3, 3, 7, 11, 15, q3);
      && Column(s1, 1) == Column(s, 1) && Column(s2, 2) == Column(s, 2) && Column(s3, 3) == Column(s, 3)
      && Column(s4, 0) == q0 && Column(s4, 1) == q1 && Column(s4, 2) == q2 && Column(s4, 3) == q3
  {
  }

  lemma DiagonalPlaces<T>(s: seq<T>)
    requires |s| == 16
    ensures Diagonal(s, 0) == (s[0], s[5], s[10], s[15]) && Diagonal(s, 1) == (s[1], s[6], s[11], s[12])
    ensures Diagonal(s, 2) == (s[2], s[7], s[8], s[13]) && Diagonal(s, 3) == (s[3], s[4], s[9], s[14])
  {
  }

  lemma DiagonalsPlaced<T>(s: seq<T>, q0: (T, T, T, T), q1: (T, T, T, T), q2: (T, T, T, T), q3: (T, T, T, T))
    requires |s| == 16
    ensures var s1 := Placed(s, 0, 5, 10, 15, q0);
      var s2 := Placed(s1, 1, 6, 11, 12, q1);
      var s3 := Placed(s2, 2, 7, 8, 13, q2);
      var s4 := Placed(s3, 3, 4, 9, 14, q3);
      && Diagonal(s1, 1) == Diagonal(s, 1) && Diagonal(s2, 2) == Diagonal(s, 2) && Diagonal(s3, 3) == Diagonal(s, 3)
      && Diagonal(s4, 0) == q0 && Diagonal(s4, 1) == q1 && Diagonal(s4, 2) == q2 && Diagonal(s4, 3) == q3
  {
  }

  /** Four quarter rounds one after the other, each at its own column. */
  lemma ColumnRoundByColumns(s: seq<Word>, c: nat)
    requires |s| == 16 && c < 4
    ensures Column(ColumnRound(s), c) == QuarterOf(Column(s, c))
  {
    var s1 := QuarterAt(s, 0, 4, 8, 12);
    var s2 := QuarterAt(s1, 1, 5, 9, 13);
    var s3 := QuarterAt(s2, 2, 6, 10, 14);
    ColumnsPlaced(s, QuarterOf(Column(s, 0)), QuarterOf(Column(s1, 1)), QuarterOf(Column(s2, 2)),
                  QuarterOf(Column(s3, 3)));
  }

  /** And each at its own diagonal. */
  lemma DiagonalRoundByDiagonals(s: seq<Word>, c: nat)
    requires |s| == 16 && c < 4
    ensures Diagonal(DiagonalRound(s), c) == QuarterOf(Diagonal(s, c))
  {
    var s1 := QuarterAt(s, 0, 5, 10, 15);
    var s2 := QuarterAt(s1, 1, 6, 11, 12);
    var s3 := QuarterAt(s2, 2, 7, 8, 13);
    DiagonalPlaces(s);
    DiagonalPlaces(s1);
    DiagonalPlaces(s2);
    DiagonalPlaces(s3);
    var q0 := QuarterOf(Diagonal(s, 0));
    var q1 := QuarterOf(Diagonal(s1, 1));
    var q2 := QuarterOf(Diagonal(s2, 2));
    var q3 := QuarterOf(Diagonal(s3, 3));
    DiagonalsPlaced(s, q0, q1, q2, q3);
    assert s1 == Placed(s, 0, 5, 10, 15, q0);
    assert s2 == Placed(s1, 1, 6, 11, 12, q1);
    assert s3 == Placed(s2, 2, 7, 8, 13, q2);
    assert DiagonalRound(s) == Placed(s3, 3, 4, 9, 14, q3);
  }

  /** Section 2.3 of RFC 8439: one more double round makes a quarter round of each column, then of each
      diagonal of the outcome. */
  lemma DoubleRoundMeans(s: seq<Word>, n: nat, c: nat) returns (between: seq<Word>)
    requires |s| == 16 && c < 4
    ensures |between| == 16
    ensures forall d: nat :: d < 4 ==> Column(between, d) == QuarterOf(Column(DoubleRounds(s, n), d))
    ensures Diagonal(DoubleRounds(s, n + 1), c) == QuarterOf(Diagonal(between, c))
  {
    between := ColumnRound(DoubleRounds(s, n));
    forall d: nat | d < 4
      ensures Column(between, d) == QuarterOf(Column(DoubleRounds(s, n), d))
    {
      ColumnRoundByColumns(DoubleRounds(s, n), d);
    }
    DiagonalRoundByDiagonals(between, c);
  }

  function Ascii(text: string): (r: seq<Byte>)
    requires forall i :: 0 <= i < |text| ==> text[i] as int < 256
    ensures |r| == |text|
  {
    seq(|text|, i requires 0 <= i < |text| => text[i] as int)
  }

  lemma ConstantsSpell()
    ensures LoadLe(Ascii("expa")) == 0x61707865 && LoadLe(Ascii("nd 3")) == 0x3320646e
    ensures LoadLe(Ascii("2-by")) == 0x79622d32 && LoadLe(Ascii("te k")) == 0x6b206574
  {
    LoadFour(Ascii("expa"));
    LoadFour(Ascii("nd 3"));
    LoadFour(Ascii("2-by"));
    LoadFour(Ascii("te k"));
  }

  lemma LoadFour(b: seq<Byte>)
    requires |b| == 4
    ensures LoadLe(b) == b[0] as int + 256 * b[1] as int + 65536 * b[2] as int + 16777216 * b[3] as int
  {
    assert b[1..][1..][1..] == [b[3]] && LoadLe([b[3]]) == b[3];
    assert LoadLe(b[1..][1..]) == b[2] as int + 256 * b[3] as int;
  }

  /** Section 2.3 of RFC 8439: a state is the constants, which spell "expand 32-byte k", the key, the
      block counter and the nonce. */
  lemma InitialStateLayout(key: seq<Byte>, counter: nat, nonce: seq<Byte>, i: nat)
    requires |key| == 32 && |nonce| == 12 && i < 8
    ensures var s := InitialState(key, counter, nonce);
      && s[0] == 0x61707865 && s[1] == 0x3320646e && s[2] == 0x79622d32 && s[3] == 0x6b206574
      && s[4 + i] == LoadWord(key[4 * i..4 * i + 4])
      && s[12] == (counter % 0x1_0000_0000) as Word
      && (i < 3 ==> s[13 + i] == LoadWord(nonce[4 * i..4 * i + 4]))
  {
    var constants := [0x61707865 as Word, 0x3320646e, 0x79622d32, 0x6b206574];
    var keyWords := seq(8, i requires 0 <= i < 8 => LoadWord(key[4 * i..4 * i + 4]));
    assert keyWords[i] == LoadWord(key[4 * i..4 * i + 4]);
  }

  lemma {:induction false} SerializedWord(words: seq<Word>, i: nat)
    requires i < |words|
    ensures Serialized(words)[4 * i..4 * i + 4] == StoreLe(words[i] as nat, 4)
  {
    var front := words[..|words| - 1];
    if i < |front| {
      SerializedWord(front, i);
      assert Serialized(words)[4 * i..4 * i + 4] == Serialized(front)[4 * i..4 * i + 4];
    }
  }

  /** Section 2.3.1 of RFC 8439: the block is written from sixteen words, each the word after ten double
      rounds and the word of the initial state added. */
  lemma BlockWords(key: seq<Byte>, counter: nat, nonce: seq<Byte>, i: nat) returns (words: seq<Word>)
    requires |key| == 32 && |nonce| == 12 && i < 16
    ensures |words| == 16 && Block(key, counter, nonce) == Serialized(words)
    ensures var s := InitialState(key, counter, nonce); words[i] == DoubleRounds(s, 10)[i] + s[i]
  {
    var s := InitialState(key, counter, nonce);
    words := SumWords(DoubleRounds(s, 10), s, i);
  }

  lemma SumWords(work: seq<Word>, state: seq<Word>, i: nat) returns (words: seq<Word>)
    requires |work| == |state| && i < |work|
    ensures words == Sum(work, state) && words[i] == work[i] + state[i]
  {
    words := Sum(work, state);
  }

  method QuarterRound(work: array<Word>, i: nat, j: nat, k: nat, l: nat)
    requires work.Length == 16 && i < j < k < 16 && l < 16 && l != i && l != j && l != k
    modifies work
    ensures work[..] == QuarterAt(old(work[..]), i, j, k, l)
  {
    var q := Quarter(work[i], work[j], work[k], work[l]);
    StoreFour(work, i, j, k, l, q);
  }

  method StoreFour(work: array<Word>, i: nat, j: nat, k: nat, l: nat, q: (Word, Word, Word, Word))
    requires work.Length == 16 && i < j < k < 16 && l < 16 && l != i && l != j && l != k
    modifies work
    ensures work[..] == Placed(old(work[..]), i, j, k, l, q)
  {
    work[i], work[j], work[k], work[l] := q.0, q.1, q.2, q.3;
  }

  method TenDoubleRounds(work: array<Word>)
    requires work.Length == 16
    modifies work
    ensures work[..] == DoubleRounds(old(work[..]), 10)
  {
    for n := 0 to 10
      invariant work[..] == DoubleRounds(old(work[..]), n)
    {
      QuarterRound(work, 0, 4, 8, 12);
      QuarterRound(work, 1, 5, 9, 13);
      QuarterRound(work, 2, 6, 10, 14);
      QuarterRound(work, 3, 7, 11, 15);

      QuarterRound(work, 0, 5, 10, 15);
      QuarterRound(work, 1, 6, 11, 12);
      QuarterRound(work, 2, 7, 8, 13);
      QuarterRound(work, 3, 4, 9, 14);
    }
  }

  method ChaCha20Block(key: seq<Byte>, counter: nat, nonce: seq<Byte>) returns (out: seq<Byte>)
    requires |key| == 32 && |nonce| == 12
    ensures out == Block(key, counter, nonce)
  {
    var state := InitialState(key, counter, nonce);
    var work := new Word[16](i requires 0 <= i < 16 => state[i]);
    assert work[..] == state;
    TenDoubleRounds(work);
    out := Serialize(Sum(work[..], state));
  }

  method Serialize(words: seq<Word>) returns (out: seq<Byte>)
    ensures out == Serialized(words)
  {
    out := [];
    for i := 0 to |words|
      invariant out == Serialized(words[..i])
    {
      assert words[..i + 1][..i] == words[..i];
      out := out + StoreLe(words[i] as nat, 4);
    }
    assert words[..|words|] == words;
  }

  // The mask

  /** Exclusive or, bit by bit from the lowest. */
  function Xor(a: Byte, b: Byte): Byte {
    XorBelow(a, b, 8);
    Bits(a, b)
  }

  function Bits(a: nat, b: nat): nat {
    if a == 0 && b == 0 then 0 else LowBit(a, b) + 2 * Bits(a / 2, b / 2)
  }

  function LowBit(a: nat, b: nat): (r: nat)
    ensures r < 2
  {
    if a % 2 == b % 2 then 0 else 1
  }

  function Power2(n: nat): nat {
    if n == 0 then 1 else 2 * Power2(n - 1)
  }

  lemma {:induction false} XorBelow(a: nat, b: nat, n: nat)
    requires a < Power2(n) && b < Power2(n)
    ensures Bits(a, b) < Power2(n)
  {
    if a != 0 || b != 0 {
      XorBelow(a / 2, b / 2, n - 1);
    }
  }

  lemma Halves(bit: nat, rest: nat)
    requires bit < 2
    ensures (bit + 2 * rest) % 2 == bit && (bit + 2 * rest) / 2 == rest
  {
  }

  lemma {:induction false} XorUndoesXor(a: nat, b: nat)
    ensures Bits(Bits(a, b), b) == a
    decreases a + b
  {
    if a != 0 || b != 0 {
      XorUndoesXor(a / 2, b / 2);
      Halves(LowBit(a, b), Bits(a / 2, b / 2));
      var x := Bits(a, b);
      assert x % 2 == LowBit(a, b) && x / 2 == Bits(a / 2, b / 2);
      assert LowBit(x, b) == a % 2;
    }
  }

  /** Bit k of a number. */
  function Bit(n: nat, k: nat): nat {
    if k == 0 then n % 2 else Bit(n / 2, k - 1)
  }

  lemma {:induction false} BitsDiffer(a: nat, b: nat, k: nat)
    ensures Bit(Bits(a, b), k) == if Bit(a, k) == Bit(b, k) then 0 else 1
  {
    if a != 0 || b != 0 {
      Halves(LowBit(a, b), Bits(a / 2, b / 2));
    }
    if k > 0 {
      BitsDiffer(a / 2, b / 2, k - 1);
    }
  }

  /** A bit of an exclusive or is set where the two differ. */
  lemma XorBits(a: Byte, b: Byte, k: nat)
    ensures Bit(Xor(a, b), k) == if Bit(a, k) == Bit(b, k) then 0 else 1
  {
    BitsDiffer(a, b, k);
  }

  /** A key stream in blocks of 64 bytes, by block counter. */
  type Blocks = nat -> seq<Byte>

  ghost predicate Wide(blocks: Blocks) {
    forall c :: |blocks(c)| == 64
  }

  ghost predicate IsStreamOf(blocks: Blocks, key: seq<Byte>, nonce: seq<Byte>)
    requires |key| == 32 && |nonce| == 12
  {
    Wide(blocks) && forall c {:trigger Block(key, c, nonce)} :: blocks(c) == Block(key, c, nonce)
  }

  function ChaChaBlocks(key: seq<Byte>, nonce: seq<Byte>): (blocks: Blocks)
    requires |key| == 32 && |nonce| == 12
    ensures IsStreamOf(blocks, key, nonce)
  {
    (c: nat) => Block(key, c, nonce)
  }

  /** The block and the place in it that mask byte i. */
  function Position(counter: nat, i: nat): (nat, nat) {
    ((counter + i / 64) % 0x1_0000_0000, i % 64)
  }

  /** The i-th byte of the key stream; the block counter wraps in 32 bits. */
  function KeyStream(blocks: Blocks, counter: nat, i: nat): Byte
    requires Wide(blocks)
  {
    var p := Position(counter, i);
    blocks(p.0)[p.1]
  }

  function MaskedBy(blocks: Blocks, counter: nat, input: seq<Byte>): (r: seq<Byte>)
    requires Wide(blocks)
    ensures |r| == |input|
  {
    seq(|input|, i requires 0 <= i < |input| => Xor(input[i], KeyStream(blocks, counter, i)))
  }

  function Masked(key: seq<Byte>, nonce: seq<Byte>, counter: nat, input: seq<Byte>): (r: seq<Byte>)
    requires |key| == 32 && |nonce| == 12
    ensures |r| == |input|
  {
    MaskedBy(ChaChaBlocks(key, nonce), counter, input)
  }

  /** No byte of the key stream is used twice for texts up to 2^38 bytes, whatever counter they start at,
      and byte 2^38 is masked as byte 0 is. */
  lemma PositionsDiffer(counter: nat, i: nat, j: nat)
    requires counter < 0x1_0000_0000 && i < j < 0x40_0000_0000
    ensures Position(counter, i) != Position(counter, j)
    ensures Position(counter, i + 0x40_0000_0000) == Position(counter, i)
  {
    assert (i + 0x40_0000_0000) / 64 == i / 64 + 0x1_0000_0000;
    Wrapped(counter + i / 64);
    Wrapped(counter + j / 64);
  }

  lemma Wrapped(n: nat)
    requires n < 0x2_0000_0000
    ensures n % 0x1_0000_0000 == if n < 0x1_0000_0000 then n else n - 0x1_0000_0000
  {
  }

  /** Masking twice with the same key stream gives the input back. */
  lemma MaskUndoesMask(blocks: Blocks, counter: nat, input: seq<Byte>)
    requires Wide(blocks)
    ensures MaskedBy(blocks, counter, MaskedBy(blocks, counter, input)) == input
  {
    var once := MaskedBy(blocks, counter, input);
    forall i | 0 <= i < |input| ensures MaskedBy(blocks, counter, once)[i] == input[i] {
      XorUndoesXor(input[i], KeyStream(blocks, counter, i));
    }
  }

  method ChaCha20Xor(key: seq<Byte>, nonce: seq<Byte>, counter: nat, input: seq<Byte>) returns (output: seq<Byte>)
    requires |key| == 32 && |nonce| == 12 && counter < 0x1_0000_0000
    ensures output == Masked(key, nonce, counter, input)
  {
    output := XorStream(key, nonce, counter, input, ChaChaBlocks(key, nonce));
  }

  method XorStream(key: seq<Byte>, nonce: seq<Byte>, start: nat, input: seq<Byte>, ghost blocks: Blocks)
    returns (output: seq<Byte>)
    requires |key| == 32 && |nonce| == 12 && start < 0x1_0000_0000 && IsStreamOf(blocks, key, nonce)
    ensures output == MaskedBy(blocks, start, input)
  {
    ghost var whole := MaskedBy(blocks, start, input);
    var counter := start;
    var done := 0;
    ghost var used := 0;
    output := [];
    while done < |input|
      invariant done <= |input| && (done == 64 * used || done == |input|)
      invariant counter == (start + used) % 0x1_0000_0000
      invariant output == whole[..done]
    {
      var block := NextBlock(key, nonce, counter, blocks);
      var count := if |input| - done > 64 then 64 else |input| - done;
      var part := XorWith(input[done..done + count], block);
      MaskOfBlock(blocks, start, input, used, block, part);
      output := output + part;
      CounterWraps(start, used);
      counter := (counter + 1) % 0x1_0000_0000;
      done := done + count;
      used := used + 1;
    }
    assert whole[..|input|] == whole;
  }

  lemma CounterWraps(start: nat, used: nat)
    ensures ((start + used) % 0x1_0000_0000 + 1) % 0x1_0000_0000 == (start + used + 1) % 0x1_0000_0000
  {
  }

  method NextBlock(key: seq<Byte>, nonce: seq<Byte>, counter: nat, ghost blocks: Blocks) returns (block: seq<Byte>)
    requires |key| == 32 && |nonce| == 12 && IsStreamOf(blocks, key, nonce)
    ensures block == blocks(counter)
  {
    block := ChaCha20Block(key, counter, nonce);
  }

  lemma MaskOfBlock(blocks: Blocks, start: nat, input: seq<Byte>, used: nat, block: seq<Byte>, part: seq<Byte>)
    requires Wide(blocks) && block == blocks((start + used) % 0x1_0000_0000)
    requires |part| <= 64 && 64 * used + |part| <= |input|
    requires forall i :: 0 <= i < |part| ==> part[i] == Xor(input[64 * used + i], block[i])
    ensures MaskedBy(blocks, start, input)[..64 * used + |part|] == MaskedBy(blocks, start, input)[..64 * used] + part
  {
    var whole := MaskedBy(blocks, start, input);
    forall i | 0 <= i < |part| ensures whole[64 * used + i] == part[i] {
      assert (64 * used + i) / 64 == used && (64 * used + i) % 64 == i;
    }
  }

  method XorWith(input: seq<Byte>, block: seq<Byte>) returns (output: seq<Byte>)
    requires |input| <= |block|
    ensures |output| == |input| && forall i :: 0 <= i < |input| ==> output[i] == Xor(input[i], block[i])
  {
    output := [];
    for i := 0 to |input|
      invariant |output| == i && forall j :: 0 <= j < i ==> output[j] == Xor(input[j], block[j])
    {
      output := output + [Xor(input[i], block[i])];
    }
  }
}
