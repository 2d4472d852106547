/** The fast formatter: a format string is analysed once into at most two conversions between plain
    parts, kept in a per-thread ring and at the call site, and then only copied together. */
module FastFormats {
  import opened IntPrinter
  import opened Wrappers

  const FAST_FORMAT_CACHE_SIZE: nat := 2
  const FAST_FORMAT_SCAN_LIMIT: nat := 48
  const DEFAULT_BUFFER_SIZE: nat := 16384

  datatype Kind = NONE | LITERAL | FORMAT_S | FORMAT_D | FORMAT_I | FORMAT_U | FORMAT_P

  datatype Arg = Str(text: Option<string>) | Int(i: int) | Unsigned(u: nat) | Pointer(p: nat)

  function KindOf(c: char): Kind {
    if c == 's' then FORMAT_S else if c == 'd' then FORMAT_D else if c == 'i' then FORMAT_I
    else if c == 'u' then FORMAT_U else if c == 'p' then FORMAT_P else NONE
  }

  /** The argument has the type its conversion asks for. */
  predicate Fits(kind: Kind, a: Arg) {
    match kind
    case FORMAT_S => a.Str? && (a.text.Some? ==> '\0' !in a.text.value)
    case FORMAT_D => a.Int? && -0x8000_0000 <= a.i < 0x8000_0000
    case FORMAT_I => a.Int? && -0x8000_0000 <= a.i < 0x8000_0000
    case FORMAT_U => a.Unsigned? && a.u < 0x1_0000_0000
    case FORMAT_P => a.Pointer? && a.p < 0x1_0000_0000_0000_0000
    case _ => false
  }

  // What a format means

  /** The conversions of a format from `i` on; None at a percent sign with nothing known after it. */
  function Conversions(format: string, i: nat := 0): Option<seq<Kind>>
    decreases |format| - i
  {
    if i >= |format| then Some([])
    else if format[i] != '%' then Conversions(format, i + 1)
    else if i + 1 >= |format| || KindOf(format[i + 1]) == NONE then None
    else
      var rest := Conversions(format, i + 2);
      if rest.None? then None else Some([KindOf(format[i + 1])] + rest.value)
  }

  /** What the caller passes for the character behind a percent sign; no string holds a NUL. */
  predicate Asks(spec: char, a: Arg) {
    if spec == 's' then a.Str? && (a.text.Some? ==> '\0' !in a.text.value)
    else if spec in "di" then a.Int? && -0x8000_0000 <= a.i <= 0x7FFF_FFFF
    else if spec == 'u' then a.Unsigned? && a.u <= 0xFFFF_FFFF
    else spec == 'p' && a.Pointer? && a.p <= 0xFFFF_FFFF_FFFF_FFFF
  }

  lemma KindAsksFor(spec: char, a: Arg)
    ensures Fits(KindOf(spec), a) <==> Asks(spec, a)
    ensures KindOf(spec) == NONE <==> spec !in "sdiup"
  {
  }

  predicate Supported(format: string) {
    |format| < FAST_FORMAT_SCAN_LIMIT && Conversions(format).Some? && |Conversions(format).value| <= 2
  }

  ghost predicate ArgsFit(kinds: seq<Kind>, args: seq<Arg>) {
    |kinds| <= |args| && forall k :: 0 <= k < |kinds| ==> Fits(kinds[k], args[k])
  }

  function Hex(n: nat): string {
    var d := n % 16;
    var c := if d < 10 then '0' + d as char else 'a' + (d - 10) as char;
    if n < 16 then [c] else Hex(n / 16) + [c]
  }

  predicate IsHex(s: string) {
    forall i :: 0 <= i < |s| ==> '0' <= s[i] <= '9' || 'a' <= s[i] <= 'f'
  }

  function HexValue(s: string): nat
    requires IsHex(s)
  {
    if s == "" then 0
    else
      var c := s[|s| - 1];
      16 * HexValue(s[..|s| - 1]) + if c <= '9' then (c - '0') as nat else (c - 'a') as nat + 10
  }

  /** Reading the digits gives the number back, and there is no leading zero. */
  lemma {:induction false} HexReadsBack(n: nat)
    ensures IsHex(Hex(n)) && HexValue(Hex(n)) == n && Hex(n) != "" && (n > 0 ==> Hex(n)[0] != '0')
  {
    if n >= 16 {
      HexReadsBack(n / 16);
      assert Hex(n)[..|Hex(n)| - 1] == Hex(n / 16);
    } else {
      assert Hex(n)[..0] == "";
    }
  }

  function ArgText(a: Arg): string {
    match a
    case Str(text) => if text.Some? then text.value else "(null)"
    case Int(i) => SignedDecimal(i)
    case Unsigned(u) => Decimal(u)
    case Pointer(p) => "0x" + Hex(p)
  }

  /** A number's text reads back as that number. */
  lemma NumberTextReadsBack(a: Arg)
    requires !a.Str?
    ensures var t := ArgText(a);
      && (a.Unsigned? ==> AllDigits(t) && ValueOf(t) == a.u)
      && (a.Int? && a.i >= 0 ==> AllDigits(t) && ValueOf(t) == a.i)
      && (a.Int? && a.i < 0 ==> |t| > 1 && t[0] == '-' && AllDigits(t[1..]) && ValueOf(t[1..]) == -a.i)
      && (a.Pointer? ==> |t| > 2 && t[..2] == "0x" && IsHex(t[2..]) && HexValue(t[2..]) == a.p)
  {
    match a
    case Int(i) =>
      DecimalReadsBack(if i < 0 then -i else i);
      assert i < 0 ==> ArgText(a)[1..] == Decimal(-i);
    case Unsigned(u) => DecimalReadsBack(u);
    case Pointer(p) =>
      HexReadsBack(p);
      assert ArgText(a)[2..] == Hex(p);
    case _ =>
  }

  /** A string's text is itself, and a missing one is named. */
  lemma StringText(text: string)
    ensures ArgText(Str(Some(text))) == text && ArgText(Str(None)) == "(null)"
  {
  }

  /** The plain expansion, one character or one conversion at a time. */
  function Expand(format: string, args: seq<Arg>, i: nat := 0): string
    requires Conversions(format, i).Some? && |Conversions(format, i).value| <= |args|
    decreases |format| - i
  {
    if i >= |format| then ""
    else if format[i] != '%' then [format[i]] + Expand(format, args, i + 1)
    else ArgText(args[0]) + Expand(format, args[1..], i + 2)
  }

  predicate Plain(format: string, from: nat, to: nat) {
    forall i :: from <= i < to && i < |format| ==> format[i] != '%'
  }

  lemma {:induction false} PlainPart(format: string, args: seq<Arg>, from: nat, to: nat)
    requires from <= to <= |format| && Plain(format, from, to)
    ensures Conversions(format, from) == Conversions(format, to)
    ensures Conversions(format, from).Some? && |Conversions(format, from).value| <= |args| ==>
              Expand(format, args, from) == format[from..to] + Expand(format, args, to)
    decreases |format| - from
  {
    if from < to {
      PlainPart(format, args, from + 1, to);
      assert format[from..to] == [format[from]] + format[from + 1..to];
      if Conversions(format, from).Some? && |Conversions(format, from).value| <= |args| {
        Regroup([format[from]], format[from + 1..to], Expand(format, args, to));
      }
    }
  }

  /** Plain parts with a known conversion between any two. */
  predicate IsPattern(parts: seq<string>, specs: string) {
    && |parts| == |specs| + 1
    && '%' !in parts[0]
    && (specs != "" ==> specs[0] in "sdiup" && IsPattern(parts[1..], specs[1..]))
  }

  function Pattern(parts: seq<string>, specs: string): string
    requires |parts| == |specs| + 1
  {
    if specs == "" then parts[0] else parts[0] + (['%', specs[0]] + Pattern(parts[1..], specs[1..]))
  }

  function Message(parts: seq<string>, args: seq<Arg>): string
    requires 0 < |parts| <= |args| + 1
  {
    if |parts| == 1 then parts[0] else parts[0] + (ArgText(args[0]) + Message(parts[1..], args[1..]))
  }

  function KindsOf(specs: string): (r: seq<Kind>)
    ensures |r| == |specs|
  {
    if specs == "" then [] else [KindOf(specs[0])] + KindsOf(specs[1..])
  }

  /** The conversions of such a format are its own, in order, and each is replaced by its argument. */
  lemma {:induction false} PatternExpands(format: string, i: nat, parts: seq<string>, specs: string, args: seq<Arg>)
    requires i <= |format| && IsPattern(parts, specs) && |specs| <= |args| && format[i..] == Pattern(parts, specs)
    ensures Conversions(format, i) == Some(KindsOf(specs))
    ensures Expand(format, args, i) == Message(parts, args)
    decreases |specs|
  {
    var j := i + |parts[0]|;
    PatternFront(format, i, parts, specs);
    if specs != "" {
      PatternExpands(format, j + 2, parts[1..], specs[1..], args[1..]);
    }
    PlainPart(format, args, i, j);
  }

  lemma PatternFront(format: string, i: nat, parts: seq<string>, specs: string)
    requires i <= |format| && IsPattern(parts, specs) && format[i..] == Pattern(parts, specs)
    ensures var j := i + |parts[0]|;
      && j <= |format| && format[i..j] == parts[0] && Plain(format, i, j)
      && (specs == "" ==> j == |format|)
      && (specs != "" ==> j + 2 <= |format| && format[j] == '%' && format[j + 1] == specs[0]
                          && KindOf(specs[0]) != NONE && format[j + 2..] == Pattern(parts[1..], specs[1..]))
  {
    var t, j := format[i..], i + |parts[0]|;
    assert t[..|parts[0]|] == parts[0];
    assert forall k :: i <= k < j ==> format[k] == parts[0][k - i];
    if specs != "" {
      assert t[|parts[0]|..] == ['%', specs[0]] + Pattern(parts[1..], specs[1..]);
      assert format[j + 2..] == t[|parts[0]|..][2..];
    }
  }

  /** And every format that is analysed has this form. */
  lemma {:induction false} OnlyPatterns(format: string, i: nat) returns (parts: seq<string>, specs: string)
    requires i <= |format| && Conversions(format, i).Some?
    ensures IsPattern(parts, specs) && format[i..] == Pattern(parts, specs)
    decreases |format| - i
  {
    if i == |format| {
      return [""], "";
    }
    if format[i] != '%' {
      parts, specs := OnlyPatterns(format, i + 1);
      GrowFront(parts, specs, format[i]);
      parts := parts[0 := [format[i]] + parts[0]];
    } else {
      parts, specs := OnlyPatterns(format, i + 2);
      assert ([""] + parts)[1..] == parts && ([format[i + 1]] + specs)[1..] == specs;
      parts, specs := [""] + parts, [format[i + 1]] + specs;
    }
  }

  /** The formats taken are the short ones with at most two of the known conversions and no other percent
      sign. */
  lemma SupportedMeans(format: string)
    ensures Supported(format) <==>
      |format| < 48 && exists parts, specs :: IsPattern(parts, specs) && |specs| <= 2 && format == Pattern(parts, specs)
  {
    assert format[0..] == format;
    if Conversions(format).Some? {
      var parts, specs := OnlyPatterns(format, 0);
      PatternCounts(format, parts, specs);
    }
    if parts, specs :| IsPattern(parts, specs) && |specs| <= 2 && format == Pattern(parts, specs) {
      PatternCounts(format, parts, specs);
    }
  }

  lemma PatternCounts(format: string, parts: seq<string>, specs: string)
    requires IsPattern(parts, specs) && format == Pattern(parts, specs)
    ensures Conversions(format).Some? && |Conversions(format).value| == |specs|
  {
    assert format[0..] == format;
    PatternExpands(format, 0, parts, specs, seq(|specs|, _ => Int(0)));
  }

  lemma GrowFront(parts: seq<string>, specs: string, c: char)
    requires IsPattern(parts, specs) && c != '%'
    ensures var more := parts[0 := [c] + parts[0]];
      IsPattern(more, specs) && Pattern(more, specs) == [c] + Pattern(parts, specs)
  {
    var more := parts[0 := [c] + parts[0]];
    assert more[1..] == parts[1..];
    if specs != "" {
      Regroup([c], parts[0], ['%', specs[0]] + Pattern(parts[1..], specs[1..]));
    }
  }

  // Analysing a format

  datatype Entry = Entry(format: Option<nat>, kind1: Kind, kind2: Kind, specCount: nat, part0Len: nat,
                         part1Pos: nat, part1Len: nat, part2Pos: nat, part2Len: nat, bufferSizeHint: nat)

  const NO_ENTRY := Entry(None, NONE, NONE, 0, 0, 0, 0, 0, 0, 0)

  predicate ConversionAt(format: string, i: nat, kind: Kind) {
    i + 1 < |format| && format[i] == '%' && kind == KindOf(format[i + 1]) && kind != NONE
  }

  /** The parts of an analysed format, up to `end`. */
  ghost predicate Cuts(e: Entry, format: string, end: nat) {
    match e.specCount
    case 0 => Plain(format, 0, end)
    case 1 => Plain(format, 0, e.part0Len) && ConversionAt(format, e.part0Len, e.kind1)
              && e.part1Pos == e.part0Len + 2 <= end && Plain(format, e.part1Pos, end)
    case 2 => Plain(format, 0, e.part0Len) && ConversionAt(format, e.part0Len, e.kind1)
              && e.part1Pos == e.part0Len + 2 && Plain(format, e.part1Pos, e.part1Pos + e.part1Len)
              && ConversionAt(format, e.part1Pos + e.part1Len, e.kind2)
              && e.part2Pos == e.part1Pos + e.part1Len + 2 <= end && Plain(format, e.part2Pos, end)
    case _ => false
  }

  /** The entry of a format: rejected, a literal, or cut into its parts. */
  ghost predicate DescribesParts(e: Entry, format: string) {
    && (e.kind1 == NONE <==> !Supported(format))
    && (e.kind1 != NONE ==>
          && Cuts(e, format, |format|)
          && (e.specCount == 0 ==> e.kind1 == LITERAL && e.part0Len == |format|)
          && (e.specCount == 1 ==> e.part1Pos + e.part1Len == |format|)
          && (e.specCount == 2 ==> e.part2Pos + e.part2Len == |format|))
  }

  /** And its size hint: none where an argument may be of any length, else the longest text with two more
      characters, rounded up to a multiple of 32. */
  ghost predicate Describes(e: Entry, format: string) {
    && DescribesParts(e, format)
    && (e.bufferSizeHint != 0 <==> e.kind1 != NONE && NoStrings(e))
    && (e.bufferSizeHint != 0 ==>
          e.bufferSizeHint % 32 == 0 && LongestText(e) + 2 <= e.bufferSizeHint < LongestText(e) + 34)
  }

  function GetMaxArgTextSize(kind: Kind): nat {
    match kind
    case FORMAT_D => 11
    case FORMAT_I => 11
    case FORMAT_U => 10
    case FORMAT_P => 2 + 8 * 2
    case _ => 0
  }

  predicate NoStrings(e: Entry) {
    (e.specCount >= 1 ==> GetMaxArgTextSize(e.kind1) > 0) && (e.specCount >= 2 ==> GetMaxArgTextSize(e.kind2) > 0)
  }

  function LongestText(e: Entry): nat {
    match e.specCount
    case 0 => e.part0Len
    case 1 => e.part0Len + e.part1Len + GetMaxArgTextSize(e.kind1)
    case _ => e.part0Len + e.part1Len + e.part2Len + GetMaxArgTextSize(e.kind1) + GetMaxArgTextSize(e.kind2)
  }

  /** Rounding up to a multiple of 32, in sixteen bits. */
  function AlignBufferSizeHint(size: nat): nat {
    var aligned := (size + 31) / 32 * 32;
    if aligned > 0xFFFF then 0xFFFF else aligned
  }

  method BuildFastFormat(address: nat, format: string) returns (e: Entry)
    ensures e.format == Some(address) && Describes(e, format)
  {
    e := NO_ENTRY.(format := Some(address));
    if |format| >= FAST_FORMAT_SCAN_LIMIT {
      return;
    }
    var found := ScanConversions(e, format);
    if found.None? {
      return;
    }
    e := found.value;
    if e.specCount == 0 {
      e := e.(kind1 := LITERAL, part0Len := |format|, bufferSizeHint := AlignBufferSizeHint(|format| + 2));
      return;
    }
    if e.specCount == 1 {
      e := e.(part1Len := |format| - e.part1Pos);
    } else {
      e := e.(part2Len := |format| - e.part2Pos);
    }
    e := WithBufferSizeHint(e, format);
  }

  /** The scan for conversions; None rejects the format. */
  method ScanConversions(empty: Entry, format: string) returns (found: Option<Entry>)
    requires empty == NO_ENTRY.(format := empty.format)
    ensures found.None? <==> Conversions(format).None? || |Conversions(format).value| > 2
    ensures found.Some? ==> ScannedTo(found.value, empty, format, |format|)
  {
    var e := empty;
    var i := 0;
    while i < |format|
      invariant i <= |format| && ScannedTo(e, empty, format, i)
      invariant Conversions(format) == Preceded(e, Conversions(format, i))
    {
      if format[i] != '%' {
        i := i + 1;
        continue;
      }
      if i + 1 >= |format| {
        return None;
      }
      var kind := KindOf(format[i + 1]);
      if kind == NONE {
        return None;
      }
      if e.specCount == 2 {
        return None;
      }
      PrecededByOneMore(e, kind, i, Conversions(format, i + 2));
      e := WithConversion(e, kind, i);
      i := i + 2;
    }
    found := Some(e);
  }

  /** The first or second conversion, found at `i`. */
  function WithConversion(e: Entry, kind: Kind, i: nat): Entry
    requires e.specCount == 0 || (e.specCount == 1 && e.part1Pos <= i)
  {
    if e.specCount == 0 then e.(kind1 := kind, part0Len := i, part1Pos := i + 2, specCount := 1)
    else e.(kind2 := kind, part1Len := i - e.part1Pos, part2Pos := i + 2, specCount := 2)
  }

  lemma PrecededByOneMore(e: Entry, kind: Kind, i: nat, rest: Option<seq<Kind>>)
    requires e.specCount == 0 || (e.specCount == 1 && e.part1Pos <= i)
    ensures Preceded(WithConversion(e, kind, i), rest)
         == Preceded(e, if rest.None? then None else Some([kind] + rest.value))
  {
    if e.specCount == 1 && rest.Some? {
      assert [e.kind1] + ([kind] + rest.value) == [e.kind1, kind] + rest.value;
    }
  }

  /** The entry while the scan is at `i`: the parts found so far, the rest still empty. */
  ghost predicate ScannedTo(e: Entry, empty: Entry, format: string, i: nat) {
    && e.format == empty.format && e.bufferSizeHint == 0 && Cuts(e, format, i)
    && (e.specCount == 0 ==> e == empty)
    && (e.specCount == 1 ==> e.part2Len == 0)
  }

  /** A size that always suffices, when no argument is a string. */
  method WithBufferSizeHint(e: Entry, format: string) returns (r: Entry)
    requires DescribesParts(e, format) && e.kind1 != NONE && 1 <= e.specCount <= 2 && e.bufferSizeHint == 0
    requires |format| < FAST_FORMAT_SCAN_LIMIT && (e.specCount == 1 ==> e.part2Len == 0)
    ensures r.format == e.format && Describes(r, format)
  {
    r := e;
    var maxArg1 := GetMaxArgTextSize(e.kind1);
    var maxArg2 := if e.specCount == 2 then GetMaxArgTextSize(e.kind2) else 0;
    if maxArg1 > 0 && (e.specCount < 2 || maxArg2 > 0) {
      var maxSize := e.part0Len + e.part1Len + e.part2Len + maxArg1 + maxArg2 + 2;
      r := e.(bufferSizeHint := AlignBufferSizeHint(maxSize));
    }
  }

  /** The conversions found so far, before the ones still to be read. */
  function Preceded(e: Entry, rest: Option<seq<Kind>>): Option<seq<Kind>> {
    if rest.None? then None
    else match e.specCount
      case 0 => rest
      case 1 => Some([e.kind1] + rest.value)
      case _ => Some([e.kind1, e.kind2] + rest.value)
  }

  // Putting a message together

  function Cut(text: string, n: nat): string {
    if |text| <= n then text else text[..n]
  }

  /** A buffer of `size` characters holds `text`, cut to fit, and a NUL; `dst` is where it ends. */
  ghost predicate Holds(buffer: array<char>, size: nat, dst: nat, text: string)
    reads buffer
  {
    && 0 < size <= buffer.Length
    && dst == |Cut(text, size - 1)|
    && buffer[..dst] == Cut(text, size - 1)
    && buffer[dst] == '\0'
  }

  method BoundedStringLen(text: string, limit: nat) returns (len: nat)
    requires '\0' !in text
    ensures len == if |text| < limit then |text| else limit
  {
    len := 0;
    while len < limit && len < |text|
      invariant len <= limit && len <= |text|
    {
      len := len + 1;
    }
  }

  method CopyBounded(buffer: array<char>, size: nat, dst: nat, src: string, ghost before: string) returns (end: nat)
    requires Holds(buffer, size, dst, before)
    modifies buffer
    ensures Holds(buffer, size, end, before + src)
    ensures buffer[size..] == old(buffer[size..])
  {
    var left := size - dst;
    if left <= 1 || src == "" {
      assert src == "" ==> before + src == before;
      return dst;
    }
    var n := if |src| >= left then left - 1 else |src|;
    forall k | 0 <= k < n {
      buffer[dst + k] := src[k];
    }
    end := dst + n;
    buffer[end] := '\0';
    assert Cut(before + src, size - 1) == before + src[..n];
    assert buffer[..end] == buffer[..dst] + src[..n];
  }

  method AppendInt(buffer: array<char>, size: nat, dst: nat, value: int, ghost before: string) returns (end: nat)
    requires Holds(buffer, size, dst, before)
    modifies buffer
    ensures Holds(buffer, size, end, before + SignedDecimal(value))
    ensures buffer[size..] == old(buffer[size..])
  {
    if size - dst <= 1 {
      return dst;
    }
    end := CopyBounded(buffer, size, dst, SignedDecimal(value), before);
  }

  method AppendArg(kind: Kind, buffer: array<char>, size: nat, dst: nat, arg: Arg, ghost before: string)
    returns (ok: bool, end: nat)
    requires Holds(buffer, size, dst, before) && (KindTakes(kind) ==> Fits(kind, arg))
    modifies buffer
    ensures ok <==> KindTakes(kind)
    ensures ok ==> Holds(buffer, size, end, before + ArgText(arg))
    ensures buffer[size..] == old(buffer[size..])
  {
    match kind
    case FORMAT_S =>
      var text := if arg.text.None? then "(null)" else arg.text.value;
      var len := BoundedStringLen(text, size - dst - 1);
      end := CopyBounded(buffer, size, dst, text[..len], before);
      assert Cut(before + text[..len], size - 1) == Cut(before + text, size - 1);
      ok := true;
    case FORMAT_D =>
      end := AppendInt(buffer, size, dst, arg.i, before);
      ok := true;
    case FORMAT_I =>
      end := AppendInt(buffer, size, dst, arg.i, before);
      ok := true;
    case FORMAT_U =>
      end := CopyBounded(buffer, size, dst, Decimal(arg.u), before);
      ok := true;
    case FORMAT_P =>
      end := CopyBounded(buffer, size, dst, "0x" + Hex(arg.p), before);
      ok := true;
    case _ =>
      ok, end := false, dst;
  }

  predicate KindTakes(kind: Kind) {
    kind != NONE && kind != LITERAL
  }

  /** What the arguments of a call must be: one of the right type for each conversion. */
  ghost predicate CallFits(format: string, args: seq<Arg>) {
    Conversions(format).Some? ==> ArgsFit(Conversions(format).value, args)
  }

  lemma OneConversion(format: string, args: seq<Arg>, i: nat, kind: Kind)
    requires ConversionAt(format, i, kind) && Conversions(format, i).Some?
    requires ArgsFit(Conversions(format, i).value, args)
    ensures Conversions(format, i + 2).Some? && Conversions(format, i).value == [kind] + Conversions(format, i + 2).value
    ensures |args| >= 1 && Fits(kind, args[0]) && ArgsFit(Conversions(format, i + 2).value, args[1..])
    ensures Expand(format, args, i) == ArgText(args[0]) + Expand(format, args[1..], i + 2)
  {
    var rest := Conversions(format, i + 2).value;
    assert forall k :: 0 <= k < |rest| ==> rest[k] == Conversions(format, i).value[k + 1];
  }

  /** An entry's parts with the arguments between them. */
  function Joined(e: Entry, format: string, args: seq<Arg>): string
    requires e.specCount <= |args| && e.part0Len <= |format|
    requires e.specCount == 1 ==> e.part1Pos + e.part1Len <= |format|
    requires e.specCount == 2 ==> e.part1Pos + e.part1Len <= |format| && e.part2Pos + e.part2Len <= |format|
  {
    match e.specCount
    case 0 => format[..e.part0Len]
    case 1 => format[..e.part0Len] + ArgText(args[0]) + format[e.part1Pos..e.part1Pos + e.part1Len]
    case 2 => format[..e.part0Len] + ArgText(args[0]) + format[e.part1Pos..e.part1Pos + e.part1Len]
              + ArgText(args[1]) + format[e.part2Pos..e.part2Pos + e.part2Len]
    case _ => ""
  }

  /** An accepted entry has one or two conversions at most, each with its argument. */
  lemma PartsTakeArgs(e: Entry, format: string, args: seq<Arg>)
    requires DescribesParts(e, format) && e.kind1 != NONE && CallFits(format, args)
    ensures e.specCount <= 2 && e.specCount <= |args|
    ensures e.specCount >= 1 ==> Fits(e.kind1, args[0])
    ensures e.specCount == 2 ==> Fits(e.kind2, args[1])
  {
    PlainPart(format, args, 0, e.part0Len);
    if e.specCount >= 1 {
      OneConversion(format, args, e.part0Len, e.kind1);
      if e.specCount == 2 {
        PlainPart(format, args[1..], e.part1Pos, e.part1Pos + e.part1Len);
        OneConversion(format, args[1..], e.part1Pos + e.part1Len, e.kind2);
      }
    }
  }

  lemma Regroup(a: string, b: string, c: string)
    ensures a + b + c == a + (b + c)
  {
  }

  /** From the first conversion on. */
  lemma ExpandFromFirst(e: Entry, format: string, args: seq<Arg>)
    requires DescribesParts(e, format) && e.kind1 != NONE && e.specCount >= 1 && CallFits(format, args)
    ensures |args| >= 1 && Conversions(format, e.part1Pos).Some?
    ensures ArgsFit(Conversions(format, e.part1Pos).value, args[1..])
    ensures Expand(format, args) == format[..e.part0Len] + (ArgText(args[0]) + Expand(format, args[1..], e.part1Pos))
  {
    PlainPart(format, args, 0, e.part0Len);
    OneConversion(format, args, e.part0Len, e.kind1);
  }

  /** The last plain part. */
  lemma ExpandLast(format: string, args: seq<Arg>, i: nat)
    requires i <= |format| && Plain(format, i, |format|)
    ensures Conversions(format, i) == Some([]) && Expand(format, args, i) == format[i..]
  {
    PlainPart(format, args, i, |format|);
  }

  /** From the second part on, when there is a second conversion. */
  lemma ExpandFromSecond(e: Entry, format: string, args: seq<Arg>)
    requires DescribesParts(e, format) && e.kind1 != NONE && e.specCount == 2
    requires Conversions(format, e.part1Pos).Some? && ArgsFit(Conversions(format, e.part1Pos).value, args)
    ensures |args| >= 1
    ensures Expand(format, args, e.part1Pos)
         == format[e.part1Pos..e.part1Pos + e.part1Len] + (ArgText(args[0]) + format[e.part2Pos..])
  {
    PlainPart(format, args, e.part1Pos, e.part1Pos + e.part1Len);
    OneConversion(format, args, e.part1Pos + e.part1Len, e.kind2);
    ExpandLast(format, args[1..], e.part2Pos);
  }

  lemma JoinedOneIsExpansion(e: Entry, format: string, args: seq<Arg>)
    requires DescribesParts(e, format) && e.kind1 != NONE && CallFits(format, args) && e.specCount == 1 && |args| >= 1
    ensures Joined(e, format, args) == Expand(format, args)
  {
    ExpandFromFirst(e, format, args);
    ExpandLast(format, args[1..], e.part1Pos);
    Regroup(format[..e.part0Len], ArgText(args[0]), format[e.part1Pos..]);
  }

  lemma ExpandTwo(e: Entry, format: string, args: seq<Arg>)
    requires DescribesParts(e, format) && e.kind1 != NONE && CallFits(format, args) && e.specCount == 2 && |args| >= 2
    ensures Expand(format, args)
         == format[..e.part0Len] + (ArgText(args[0])
            + (format[e.part1Pos..e.part1Pos + e.part1Len] + (ArgText(args[1]) + format[e.part2Pos..])))
  {
    ExpandFromFirst(e, format, args);
    ExpandFromSecond(e, format, args[1..]);
  }

  lemma JoinedTwo(e: Entry, format: string, args: seq<Arg>)
    requires e.specCount == 2 <= |args| && e.part0Len <= |format| && e.part1Pos + e.part1Len <= |format|
    requires e.part2Pos + e.part2Len == |format|
    ensures Joined(e, format, args)
         == format[..e.part0Len] + (ArgText(args[0])
            + (format[e.part1Pos..e.part1Pos + e.part1Len] + (ArgText(args[1]) + format[e.part2Pos..])))
  {
    assert format[e.part2Pos..e.part2Pos + e.part2Len] == format[e.part2Pos..];
    RegroupFive(format[..e.part0Len], ArgText(args[0]), format[e.part1Pos..e.part1Pos + e.part1Len], ArgText(args[1]),
                format[e.part2Pos..]);
  }

  lemma RegroupFive(a: string, b: string, c: string, d: string, e: string)
    ensures a + (b + (c + (d + e))) == a + b + c + d + e
  {
    Regroup(a, b, c + (d + e));
    Regroup(a + b, c, d + e);
    Regroup(a + b + c, d, e);
  }

  /** Putting the parts together is the plain expansion. */
  lemma JoinedIsExpansion(e: Entry, format: string, args: seq<Arg>)
    requires DescribesParts(e, format) && e.kind1 != NONE && CallFits(format, args) && e.specCount <= |args|
    ensures Joined(e, format, args) == Expand(format, args)
  {
    if e.specCount == 0 {
      ExpandLast(format, args, 0);
    } else if e.specCount == 1 {
      JoinedOneIsExpansion(e, format, args);
    } else {
      ExpandTwo(e, format, args);
      JoinedTwo(e, format, args);
    }
  }

  /** Copies the entry's parts and arguments together; a rejected entry leaves an empty text. */
  method ExecuteFastFormat(e: Entry, format: string, buffer: array?<char>, size: nat, args: seq<Arg>)
    returns (ok: bool, outLen: nat)
    requires Describes(e, format) && (buffer != null ==> size <= buffer.Length) && CallFits(format, args)
    modifies buffer
    ensures ok <==> buffer != null && size > 0 && Supported(format)
    ensures ok ==> Holds(buffer, size, outLen, Expand(format, args))
    ensures buffer != null ==> buffer[size..] == old(buffer[size..])
  {
    if buffer == null || size == 0 {
      return false, 0;
    }
    buffer[0] := '\0';
    if e.kind1 == NONE {
      return false, 0;
    }
    PartsTakeArgs(e, format, args);
    JoinedIsExpansion(e, format, args);
    outLen := CopyBounded(buffer, size, 0, format[..e.part0Len], "");
    assert "" + format[..e.part0Len] == format[..e.part0Len];
    if e.kind1 != LITERAL {
      outLen := AppendConversions(e, format, buffer, size, outLen, args);
    }
    ok := true;
  }

  lemma JoinedText(e: Entry, format: string, args: seq<Arg>, part0: string, part1: string, part2: string)
    requires 1 <= e.specCount <= 2 && e.specCount <= |args|
    requires e.part0Len <= |format| && e.part1Pos + e.part1Len <= |format|
    requires part0 == format[..e.part0Len] && part1 == format[e.part1Pos..e.part1Pos + e.part1Len]
    requires e.specCount == 2 ==> e.part2Pos + e.part2Len <= |format|
    requires e.specCount == 2 ==> part2 == format[e.part2Pos..e.part2Pos + e.part2Len]
    ensures Joined(e, format, args)
         == if e.specCount == 1 then part0 + ArgText(args[0]) + part1
            else part0 + ArgText(args[0]) + part1 + ArgText(args[1]) + part2
  {
  }

  method AppendConversions(e: Entry, format: string, buffer: array<char>, size: nat, dst: nat, args: seq<Arg>)
    returns (end: nat)
    requires 1 <= e.specCount <= 2 && e.specCount <= |args|
    requires e.part0Len <= |format| && e.part1Pos + e.part1Len <= |format|
    requires e.specCount == 2 ==> e.part2Pos + e.part2Len <= |format|
    requires Fits(e.kind1, args[0]) && (e.specCount == 2 ==> Fits(e.kind2, args[1]))
    requires Holds(buffer, size, dst, format[..e.part0Len])
    modifies buffer
    ensures Holds(buffer, size, end, Joined(e, format, args))
    ensures buffer[size..] == old(buffer[size..])
  {
    ghost var part0 := format[..e.part0Len];
    var part1 := format[e.part1Pos..e.part1Pos + e.part1Len];
    end := AppendConversion(e.kind1, part1, buffer, size, dst, args[0], part0);
    if e.specCount == 1 {
      JoinedText(e, format, args, part0, part1, "");
      return;
    }
    var part2 := format[e.part2Pos..e.part2Pos + e.part2Len];
    JoinedText(e, format, args, part0, part1, part2);
    end := AppendConversion(e.kind2, part2, buffer, size, end, args[1], part0 + ArgText(args[0]) + part1);
  }

  method AppendConversion(kind: Kind, part: string, buffer: array<char>, size: nat, dst: nat, arg: Arg,
                          ghost before: string)
    returns (end: nat)
    requires Holds(buffer, size, dst, before) && Fits(kind, arg)
    modifies buffer
    ensures Holds(buffer, size, end, before + ArgText(arg) + part)
    ensures buffer[size..] == old(buffer[size..])
  {
    var ok;
    ok, end := AppendArg(kind, buffer, size, dst, arg, before);
    end := CopyBounded(buffer, size, end, part, before + ArgText(arg));
  }

  // A buffer of the hinted size is never cut

  function Power16(k: nat): nat {
    if k == 0 then 1 else 16 * Power16(k - 1)
  }

  lemma {:induction false} HexLength(n: nat, k: nat)
    requires k > 0 && n < Power16(k)
    ensures |Hex(n)| <= k && (n >= Power16(k - 1) ==> |Hex(n)| == k)
  {
    if n >= 16 {
      HexLength(n / 16, k - 1);
    }
  }

  lemma ArgTextBounded(kind: Kind, a: Arg)
    requires Fits(kind, a) && kind != FORMAT_S
    ensures |ArgText(a)| <= GetMaxArgTextSize(kind)
  {
    match a
    case Int(i) => DecimalLength(if i < 0 then -i else i);
    case Unsigned(u) => DecimalLength(u);
    case Pointer(p) =>
      assert Power16(8) == 0x1_0000_0000;
      assert Power16(16) == 0x1_0000_0000_0000_0000;
      HexLength(p, 16);
    case _ =>
  }

  /** The bound is met: some argument's text is as long. */
  lemma LongestIsReached(kind: Kind) returns (a: Arg)
    requires KindTakes(kind) && kind != FORMAT_S
    ensures Fits(kind, a) && |ArgText(a)| == GetMaxArgTextSize(kind)
  {
    if kind == FORMAT_U {
      a := Unsigned(0xFFFF_FFFF);
      DecimalLength(0xFFFF_FFFF);
    } else if kind == FORMAT_P {
      a := Pointer(0xFFFF_FFFF_FFFF_FFFF);
      assert Power16(8) == 0x1_0000_0000;
      assert Power16(15) == 0x1000_0000_0000_0000;
      HexLength(0xFFFF_FFFF_FFFF_FFFF, 16);
    } else {
      a := Int(-0x8000_0000);
      DecimalLength(0x8000_0000);
    }
  }

  lemma HintIsEnough(e: Entry, format: string, args: seq<Arg>)
    requires Describes(e, format) && e.kind1 != NONE && e.bufferSizeHint != 0 && CallFits(format, args)
    ensures e.bufferSizeHint >= 2 && Conversions(format).Some?
    ensures Cut(Expand(format, args), e.bufferSizeHint - 2) == Expand(format, args)
  {
    PartsTakeArgs(e, format, args);
    JoinedIsExpansion(e, format, args);
    if e.specCount >= 1 {
      ArgTextBounded(e.kind1, args[0]);
      if e.specCount == 2 {
        ArgTextBounded(e.kind2, args[1]);
      }
    }
  }

  // The caches

  datatype CacheState = EMPTY | READY | DISABLED

  /** The cache of one call site, shared by all threads. */
  class ContextCache {
    var state: CacheState
    var ffe: Entry

    ghost predicate Valid(contents: map<nat, string>)
      reads this
    {
      state == READY ==> ffe.format.Some? && IsEntryOf(ffe, contents)
    }

    constructor ()
      ensures state == EMPTY
    {
      state, ffe := EMPTY, NO_ENTRY;
    }
  }

  predicate At(cache: ContextCache, address: nat)
    reads cache
  {
    cache.state == READY && cache.ffe.format == Some(address)
  }

  predicate Hinted(cache: ContextCache, address: nat)
    reads cache
  {
    At(cache, address) && cache.ffe.bufferSizeHint != 0
  }

  /** What a call for `address` makes of its call site: the first format stays there, and any other
      disables the site for good. */
  function SiteAfter(state: CacheState, held: Option<nat>, address: nat): CacheState {
    if state == EMPTY || (state == READY && held == Some(address)) then READY else DISABLED
  }

  /** A format is hinted exactly when it is taken and has no %s. */
  lemma HintedMeans(e: Entry, format: string)
    requires Describes(e, format)
    ensures e.bufferSizeHint != 0 <==> Supported(format) && FORMAT_S !in Conversions(format).value
  {
    if e.kind1 != NONE {
      PlainPart(format, [], 0, e.part0Len);
      if e.specCount >= 1 {
        assert Conversions(format).value == [e.kind1] + Conversions(format, e.part1Pos).value;
        PlainPart(format, [], e.part1Pos, e.part1Pos + e.part1Len);
        if e.specCount == 2 {
          PlainPart(format, [], e.part2Pos, |format|);
          assert Conversions(format).value == [e.kind1, e.kind2];
        }
      }
    }
  }

  /** An entry is unused, or describes the text at its address. */
  ghost predicate IsEntryOf(e: Entry, contents: map<nat, string>) {
    e.format.Some? ==> e.format.value in contents && Describes(e, contents[e.format.value])
  }

  /** The ring of one thread. */
  class ThreadCache {
    const entries: array<Entry>
    var pos: nat

    ghost predicate Valid(contents: map<nat, string>)
      reads this, entries
    {
      && entries.Length == FAST_FORMAT_CACHE_SIZE && pos < FAST_FORMAT_CACHE_SIZE
      && forall i :: 0 <= i < entries.Length ==> IsEntryOf(entries[i], contents)
    }

    constructor (ghost contents: map<nat, string>)
      ensures Valid(contents) && fresh(entries)
    {
      entries := new Entry[FAST_FORMAT_CACHE_SIZE](_ => NO_ENTRY);
      pos := 0;
    }

    predicate RingHolds(address: nat)
      reads entries
    {
      exists i :: 0 <= i < entries.Length && entries[i].format == Some(address)
    }

    method StoreFastFormat(e: Entry, ghost contents: map<nat, string>)
      requires Valid(contents) && IsEntryOf(e, contents)
      modifies this`pos, entries
      ensures Valid(contents) && entries[..] == old(entries[..])[old(pos) := e]
      ensures pos == (old(pos) + 1) % FAST_FORMAT_CACHE_SIZE
    {
      entries[pos] := e;
      pos := (pos + 1) % FAST_FORMAT_CACHE_SIZE;
    }

    /** An entry for the address from the call site or the ring; other formats disable the call site. */
    method FindFastFormat(cache: ContextCache, address: nat, ghost contents: map<nat, string>)
      returns (found: Option<Entry>)
      requires Valid(contents) && cache.Valid(contents)
      modifies cache
      ensures cache.Valid(contents)
      ensures found.Some? ==> found.value.format == Some(address) && IsEntryOf(found.value, contents)
      ensures found.Some? <==> old(At(cache, address)) || RingHolds(address)
      ensures old(At(cache, address)) ==> found == Some(old(cache.ffe))
      ensures cache.state == if found.None? && old(cache.state) == EMPTY then EMPTY
                             else SiteAfter(old(cache.state), old(cache.ffe.format), address)
      ensures cache.ffe == if old(cache.state) == EMPTY && found.Some? then found.value else old(cache.ffe)
    {
      if cache.state == READY {
        if cache.ffe.format == Some(address) {
          return Some(cache.ffe);
        }
        cache.state := DISABLED;
      }
      for i := 0 to FAST_FORMAT_CACHE_SIZE
        invariant cache.Valid(contents) && cache.ffe == old(cache.ffe)
        invariant cache.state == if old(cache.state) == READY then DISABLED else old(cache.state)
        invariant forall j :: 0 <= j < i ==> entries[j].format != Some(address)
      {
        if entries[i].format == Some(address) {
          if cache.state == EMPTY {
            cache.ffe := entries[i];
            cache.state := READY;
          }
          return Some(entries[i]);
        }
      }
      found := None;
    }

    /** The outcome depends on the text at the address, the arguments and the size alone, whatever
        the caches hold. */
    method TryFastFormat(cache: ContextCache, buffer: array?<char>, size: nat, address: Option<nat>, args: seq<Arg>,
                         contents: map<nat, string>)
      returns (ok: bool, outLen: nat)
      requires Valid(contents) && cache.Valid(contents) && (buffer != null ==> size <= buffer.Length)
      requires address.Some? ==> address.value in contents && CallFits(contents[address.value], args)
      modifies cache, this`pos, entries, buffer
      ensures Valid(contents) && cache.Valid(contents)
      ensures ok <==> address.Some? && buffer != null && size > 0 && Supported(contents[address.value])
      ensures ok ==> Holds(buffer, size, outLen, Expand(contents[address.value], args))
      ensures buffer != null ==> buffer[size..] == old(buffer[size..])
      ensures address.Some? && buffer != null && size > 0 ==>
                && cache.state == SiteAfter(old(cache.state), old(cache.ffe.format), address.value)
                && (cache.state == READY ==> cache.ffe.format == address)
                && (if old(At(cache, address.value) || RingHolds(address.value))
                    then entries[..] == old(entries[..]) && pos == old(pos)
                    else entries[..] == old(entries[..])[old(pos) := entries[old(pos)]]
                         && entries[old(pos)].format == address && pos == (old(pos) + 1) % FAST_FORMAT_CACHE_SIZE)
    {
      if address.None? || buffer == null || size == 0 {
        return false, 0;
      }
      var format := contents[address.value];
      var found := FindFastFormat(cache, address.value, contents);
      if found.Some? {
        ok, outLen := ExecuteFastFormat(found.value, format, buffer, size, args);
        return;
      }
      var e := BuildFastFormat(address.value, format);
      StoreFastFormat(e, contents);
      if cache.state == EMPTY {
        cache.ffe := e;
        cache.state := READY;
      }
      ok, outLen := ExecuteFastFormat(e, format, buffer, size, args);
    }

    /** A message's text as DoLog makes it. With a hint from the call site it is the whole expansion. */
    method FormatMessage(cache: ContextCache, address: nat, args: seq<Arg>, contents: map<nat, string>)
      returns (text: Option<string>)
      requires Valid(contents) && cache.Valid(contents)
      requires address in contents && CallFits(contents[address], args)
      modifies cache, this`pos, entries
      ensures Valid(contents) && cache.Valid(contents)
      ensures text.Some? <==> Supported(contents[address])
      ensures text.Some? ==>
                text.value == if old(Hinted(cache, address)) then Expand(contents[address], args)
                              else Cut(Expand(contents[address], args), 16382)
      ensures cache.state == SiteAfter(old(cache.state), old(cache.ffe.format), address)
      ensures cache.state == READY ==>
                (Hinted(cache, address) <==>
                 Supported(contents[address]) && FORMAT_S !in Conversions(contents[address]).value)
    {
      var size := DEFAULT_BUFFER_SIZE;
      if Hinted(cache, address) {
        size := cache.ffe.bufferSizeHint;
        if Supported(contents[address]) {
          HintIsEnough(cache.ffe, contents[address], args);
        }
      }
      var buffer := new char[size];
      buffer[0] := '\0';
      buffer[size - 1] := '\0';
      var ok, outLen := TryFastFormat(cache, buffer, size - 1, Some(address), args, contents);
      text := if ok then Some(buffer[..outLen]) else None;
      if cache.state == READY {
        HintedMeans(cache.ffe, contents[address]);
      }
    }
  }
}
