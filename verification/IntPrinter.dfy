/** Printing a 32-bit integer two digits at a time, from the right, into a caller's buffer. */
module IntPrinter {

  function Digit(d: nat): char
    requires d < 10
  {
    '0' + d as char
  }

  /** Decimal notation without leading zeros. */
  function Decimal(n: nat): string {
    if n < 10 then [Digit(n)] else Decimal(n / 10) + [Digit(n % 10)]
  }

  function SignedDecimal(value: int): string {
    if value < 0 then "-" + Decimal(-value) else Decimal(value)
  }

  predicate AllDigits(s: string) {
    forall i :: 0 <= i < |s| ==> '0' <= s[i] <= '9'
  }

  function ValueOf(s: string): nat
    requires AllDigits(s)
  {
    if s == "" then 0 else 10 * ValueOf(s[..|s| - 1]) + (s[|s| - 1] - '0') as nat
  }

  /** Reading the notation gives the number back, and there is no leading zero. */
  lemma {:induction false} DecimalReadsBack(n: nat)
    ensures AllDigits(Decimal(n)) && ValueOf(Decimal(n)) == n && |Decimal(n)| > 0
    ensures n > 0 ==> Decimal(n)[0] != '0'
  {
    if n >= 10 {
      DecimalReadsBack(n / 10);
      assert Decimal(n)[..|Decimal(n)| - 1] == Decimal(n / 10);
    } else {
      assert Decimal(n)[..0] == "";
    }
  }

  /** Where the table of the two-digit numbers, from 00 on, holds a number. */
  predicate HasEntry(digits: string, u: nat) {
    u < 100 && 2 * u + 1 < |digits| && digits[2 * u] == Digit(u / 10) && digits[2 * u + 1] == Digit(u % 10)
  }

  ghost predicate IsTable(digits: string, upTo: nat) {
    |digits| == 2 * upTo && forall u: nat :: u < upTo ==> HasEntry(digits, u)
  }

  lemma RowEntry(row: string, d: char, u: nat)
    requires u < 10 && row == [d, '0', d, '1', d, '2', d, '3', d, '4', d, '5', d, '6', d, '7', d, '8', d, '9']
    ensures row[2 * u] == d && row[2 * u + 1] == Digit(u)
  {
    match u case 0 => case 1 => case 2 => case 3 => case 4 => case 5 => case 6 => case 7 => case 8 => case _ =>
  }

  lemma AddRow(digits: string, tens: nat, row: string)
    requires tens < 10 && IsTable(digits, 10 * tens)
    requires var d := Digit(tens);
             row == [d, '0', d, '1', d, '2', d, '3', d, '4', d, '5', d, '6', d, '7', d, '8', d, '9']
    ensures IsTable(digits + row, 10 * tens + 10)
  {
    forall u: nat | u < 10 * tens + 10 ensures HasEntry(digits + row, u) {
      if u < 10 * tens {
        assert HasEntry(digits, u);
      } else {
        RowEntry(row, Digit(tens), u - 10 * tens);
      }
    }
  }

  method TwoDigitTable() returns (digits: string)
    ensures IsTable(digits, 100)
  {
    var rows := ["00010203040506070809", "10111213141516171819", "20212223242526272829", "30313233343536373839",
                 "40414243444546474849", "50515253545556575859", "60616263646566676869", "70717273747576777879",
                 "80818283848586878889", "90919293949596979899"];
    digits := "";
    for tens := 0 to 10
      invariant IsTable(digits, 10 * tens)
    {
      AddRow(digits, tens, rows[tens]);
      digits := digits + rows[tens];
    }
  }

  lemma {:induction false} DecimalLength(n: nat)
    requires n < 10000000000
    ensures |Decimal(n)| == if n < 10 then 1 else if n < 100 then 2 else if n < 1000 then 3 else if n < 10000 then 4
                            else if n < 100000 then 5 else if n < 1000000 then 6 else if n < 10000000 then 7
                            else if n < 100000000 then 8 else if n < 1000000000 then 9 else 10
  {
    if n >= 10 {
      DecimalLength(n / 10);
    }
  }

  lemma DropTwoDigits(v: nat)
    ensures v / 10 / 10 == v / 100 && v / 10 % 10 == v % 100 / 10 && v % 10 == v % 100 % 10
  {
  }

  lemma TwoDigits(digits: string, v: nat)
    requires IsTable(digits, 100) && v >= 10
    ensures v >= 100 ==> Decimal(v) == Decimal(v / 100) + [digits[2 * (v % 100)], digits[2 * (v % 100) + 1]]
    ensures v < 100 ==> Decimal(v) == [digits[2 * v], digits[2 * v + 1]]
  {
    assert HasEntry(digits, v % 100);
    DropTwoDigits(v);
    assert Decimal(v) == Decimal(v / 10) + [Digit(v % 10)];
  }

  /** What one call leaves in the buffer. */
  ghost predicate Printed(before: seq<char>, after: seq<char>, size: nat, value: int, r: int) {
    if r >= 0 then
      r == |SignedDecimal(value)| && |after| == |before| > r
      && after[..r + 1] == SignedDecimal(value) + "\0" && after[r + 1..] == before[r + 1..]
    else
      r == -1 && |after| == |before|
      && (after == if value < 0 && size >= 2 && |before| > 0 then before[0 := '-'] else before)
  }

  method PrintIntJeaiii(buffer: array?<char>, size: nat, value: int) returns (r: int)
    requires buffer != null ==> size <= buffer.Length
    requires -0x8000_0000 <= value < 0x8000_0000
    modifies buffer
    ensures r == -1 <==> buffer == null || size <= |SignedDecimal(value)|
    ensures buffer != null ==> Printed(old(buffer[..]), buffer[..], size, value, r)
  {
    if buffer == null || size == 0 {
      return -1;
    }
    var p, room := 0, size;
    if value < 0 {
      if size < 2 {
        return -1;
      }
      buffer[0] := '-';
      p, room := 1, size - 1;
    }
    var u := if value < 0 then -value else value;
    var digits := TwoDigitTable();
    ghost var before := buffer[..];
    var len := PrintDigits(buffer, p, room, u, digits);
    if len < 0 {
      return -1;
    }
    r := p + len;
    ghost var after, sign := buffer[..], if value < 0 then "-" else "";
    assert before[..p] == sign && after[..p] == buffer[..p] == sign;
    assert SignedDecimal(value) + "\0" == sign + (Decimal(u) + "\0");
    assert after[..r + 1] == after[..p] + buffer[p..r + 1];
    assert after[r + 1..] == buffer[r + 1..] == before[r + 1..] == old(buffer[..])[r + 1..];
  }

  /** The digits of `u` and a NUL at `p`, or nothing when `room` characters do not hold them. */
  method PrintDigits(buffer: array<char>, p: nat, room: nat, u: nat, digits: string) returns (len: int)
    requires IsTable(digits, 100) && p + room <= buffer.Length && u <= 0x8000_0000
    modifies buffer
    ensures len == if room <= |Decimal(u)| then -1 else |Decimal(u)|
    ensures buffer[..p] == old(buffer[..p])
    ensures if len < 0 then buffer[..] == old(buffer[..])
            else buffer[p..p + len + 1] == Decimal(u) + "\0" && buffer[p + len + 1..] == old(buffer[p + len + 1..])
  {
    DecimalLength(u);
    if u < 100 {
      if u < 10 {
        if room < 2 {
          return -1;
        }
        buffer[p], buffer[p + 1] := Digit(u), '\0';
        return 1;
      }
      if room < 3 {
        return -1;
      }
      TwoDigits(digits, u);
      buffer[p], buffer[p + 1], buffer[p + 2] := digits[u * 2], digits[u * 2 + 1], '\0';
      return 2;
    }
    len := if u < 1000 then 3 else 4;
    if u >= 10000 {
      len := if u >= 1000000000 then 10 else if u >= 100000000 then 9 else if u >= 10000000 then 8
             else if u >= 1000000 then 7 else if u >= 100000 then 6 else 5;
    }
    if room <= len {
      return -1;
    }
    PrintBackwards(buffer, p, u, digits);
    assert buffer[p + len + 1..] == buffer[p + len..][1..];
    buffer[p + len] := '\0';
    assert buffer[p..p + len] == Decimal(u);
    assert buffer[p..p + len + 1] == buffer[p..p + len] + "\0";
    assert buffer[p + len + 1..] == old(buffer[p + len..])[1..] == old(buffer[p + len + 1..]);
  }

  method PrintBackwards(buffer: array<char>, p: nat, u: nat, digits: string)
    requires IsTable(digits, 100) && p + |Decimal(u)| <= buffer.Length && 100 <= u <= 0x8000_0000
    modifies buffer
    ensures buffer[..p] == old(buffer[..p])
    ensures buffer[p..p + |Decimal(u)|] == Decimal(u)
    ensures buffer[p + |Decimal(u)|..] == old(buffer[p + |Decimal(u)|..])
  {
    var end := p + |Decimal(u)|;
    var q, v := end, u;
    while v >= 100
      invariant 1 <= v <= u && p <= q <= end && q - p == |Decimal(v)|
      invariant Decimal(v) + buffer[q..end] == Decimal(u)
      invariant buffer[..p] == old(buffer[..p]) && buffer[end..] == old(buffer[end..])
    {
      var q2 := v / 100;
      var r := v - q2 * 100;
      TwoDigits(digits, v);
      q := q - 2;
      buffer[q], buffer[q + 1] := digits[r * 2], digits[r * 2 + 1];
      v := q2;
    }
    DecimalLength(v);
    if v < 10 {
      q := q - 1;
      buffer[q] := Digit(v);
    } else {
      TwoDigits(digits, v);
      q := q - 2;
      buffer[q], buffer[q + 1] := digits[v * 2], digits[v * 2 + 1];
    }
    assert q == p;
  }
}
