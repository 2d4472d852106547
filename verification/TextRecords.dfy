/** Cutting a log text into records: lines that keep their ends, grouped at the lines that start a
    record. */
module TextRecords {
  import opened ChaCha20

  datatype TextFormat = Auto | Text | Json | Xml

  const NEWLINE: Byte := 10

  function Code(c: char): Byte
    requires c as int < 256
  {
    c as int
  }

  function Flattened<T>(parts: seq<seq<T>>): seq<T> {
    if parts == [] then [] else Flattened(parts[..|parts| - 1]) + parts[|parts| - 1]
  }

  lemma FlattenedPush<T>(parts: seq<seq<T>>, last: seq<T>)
    ensures Flattened(parts + [last]) == Flattened(parts) + last
  {
    assert (parts + [last])[..|parts|] == parts;
  }

  // Lines

  /** A line ends with its only newline; the last one may lack it. */
  predicate IsLine(line: seq<Byte>, last: bool) {
    line != [] && NEWLINE !in line[..|line| - 1] && (last || line[|line| - 1] == NEWLINE)
  }

  ghost predicate AreLines(lines: seq<seq<Byte>>) {
    forall i :: 0 <= i < |lines| ==> IsLine(lines[i], i == |lines| - 1)
  }

  method FindNewline(text: seq<Byte>, pos: nat) returns (end: nat)
    requires pos <= |text|
    ensures pos <= end <= |text| && NEWLINE !in text[pos..end] && (end < |text| ==> text[end] == NEWLINE)
  {
    end := pos;
    while end < |text| && text[end] != NEWLINE
      invariant pos <= end <= |text| && NEWLINE !in text[pos..end]
    {
      end := end + 1;
    }
  }

  method SplitLinesKeepEol(text: seq<Byte>) returns (lines: seq<seq<Byte>>)
    ensures Flattened(lines) == text && AreLines(lines)
  {
    lines := [];
    var pos := 0;
    while pos < |text|
      invariant pos <= |text| && Flattened(lines) == text[..pos]
      invariant forall i :: 0 <= i < |lines| ==> IsLine(lines[i], false)
    {
      var end := FindNewline(text, pos);
      if end == |text| {
        FlattenedPush(lines, text[pos..]);
        lines := lines + [text[pos..]];
        break;
      }
      FlattenedPush(lines, text[pos..end + 1]);
      assert text[pos..end + 1][..end - pos] == text[pos..end];
      lines := lines + [text[pos..end + 1]];
      pos := end + 1;
    }
  }

  // What a line looks like

  predicate IsSpace(c: Byte) {
    c == 32 || 9 <= c <= 13
  }

  predicate IsDigit(c: Byte) {
    Code('0') <= c <= Code('9')
  }

  predicate LooksLikeTimestamp(line: seq<Byte>) {
    && |line| >= 24
    && IsDigit(line[0]) && IsDigit(line[1]) && IsDigit(line[2]) && IsDigit(line[3])
    && line[4] == Code('-')
    && IsDigit(line[5]) && IsDigit(line[6])
    && line[7] == Code('-')
    && IsDigit(line[8]) && IsDigit(line[9])
    && (line[10] == Code(' ') || line[10] == Code('T'))
    && IsDigit(line[11]) && IsDigit(line[12])
    && line[13] == Code(':')
    && IsDigit(line[14]) && IsDigit(line[15])
    && line[16] == Code(':')
    && IsDigit(line[17]) && IsDigit(line[18])
    && line[19] == Code(':')
    && IsDigit(line[20]) && IsDigit(line[21]) && IsDigit(line[22])
  }

  predicate LooksLikeSignature(line: seq<Byte>) {
    && |line| >= 2
    && (line[0] == Code('D') || line[0] == Code('I') || line[0] == Code('W') || line[0] == Code('E') || line[0] == Code('C'))
    && line[1] == Code(' ')
  }

  predicate IsTextRecordStart(line: seq<Byte>) {
    LooksLikeTimestamp(line) || LooksLikeSignature(line)
  }

  /** Whether a line begins as `pattern`, where 'd' stands for a digit and '_' for a space or a T. */
  predicate BeginsAs(line: seq<Byte>, pattern: string)
    requires forall i :: 0 <= i < |pattern| ==> pattern[i] as int < 256
  {
    |line| >= |pattern| && forall i :: 0 <= i < |pattern| ==> MatchesAt(line[i], pattern[i])
  }

  predicate MatchesAt(b: Byte, p: char)
    requires p as int < 256
  {
    if p == 'd' then 48 <= b <= 57 else if p == '_' then b == 32 || b == 84 else b == Code(p)
  }

  /** A text record starts with a date and a time to the millisecond, or with a level and a space. */
  lemma StartsMean(line: seq<Byte>)
    ensures LooksLikeTimestamp(line) <==> |line| >= 24 && BeginsAs(line, "dddd-dd-dd_dd:dd:dd:ddd")
    ensures LooksLikeSignature(line) <==>
      BeginsAs(line, "D ") || BeginsAs(line, "I ") || BeginsAs(line, "W ") || BeginsAs(line, "E ") || BeginsAs(line, "C ")
  {
    var pattern := "dddd-dd-dd_dd:dd:dd:ddd";
    if |line| >= 24 && BeginsAs(line, pattern) {
      var all := seq(|pattern|, i requires 0 <= i < |pattern| => MatchesAt(line[i], pattern[i]));
      assert forall i :: 0 <= i < |pattern| ==> all[i];
    }
  }

  // Records

  /** Whether the i-th line begins a record: when it looks like a start, or no line so far did. */
  ghost predicate Begins(lines: seq<seq<Byte>>, i: nat, isStart: seq<Byte> -> bool)
    requires i < |lines|
  {
    isStart(lines[i]) || forall j :: 0 <= j <= i ==> !isStart(lines[j])
  }

  /** The records of the first n lines: a line that begins no record belongs to the one before. */
  ghost function Records(lines: seq<seq<Byte>>, n: nat, isStart: seq<Byte> -> bool): (r: seq<seq<Byte>>)
    requires n <= |lines|
    ensures n > 0 ==> r != []
  {
    if n == 0 then []
    else
      var before, line := Records(lines, n - 1, isStart), lines[n - 1];
      if Begins(lines, n - 1, isStart) then before + [line] else Joined(before, line)
  }

  /** The last record grown by a line. */
  function Joined(records: seq<seq<Byte>>, line: seq<Byte>): seq<seq<Byte>> {
    if records == [] then [line] else records[..|records| - 1] + [records[|records| - 1] + line]
  }

  lemma JoinedKeepsText(records: seq<seq<Byte>>, line: seq<Byte>)
    requires line != [] && forall i :: 0 <= i < |records| ==> records[i] != []
    ensures Flattened(Joined(records, line)) == Flattened(records) + line
    ensures forall i :: 0 <= i < |Joined(records, line)| ==> Joined(records, line)[i] != []
  {
    if records == [] {
      FlattenedPush([], line);
    } else {
      var front, last := records[..|records| - 1], records[|records| - 1];
      FlattenedPush(front, last + line);
      assert Flattened(front) + (last + line) == Flattened(front) + last + line;
    }
  }

  /** Grouping loses and reorders nothing, and no record is empty. */
  lemma {:induction false} RecordsPartition(lines: seq<seq<Byte>>, n: nat, isStart: seq<Byte> -> bool)
    requires n <= |lines| && forall i :: 0 <= i < |lines| ==> lines[i] != []
    ensures Flattened(Records(lines, n, isStart)) == Flattened(lines[..n])
    ensures forall i :: 0 <= i < |Records(lines, n, isStart)| ==> Records(lines, n, isStart)[i] != []
  {
    if n > 0 {
      RecordsPartition(lines, n - 1, isStart);
      assert lines[..n] == lines[..n - 1] + [lines[n - 1]];
      FlattenedPush(lines[..n - 1], lines[n - 1]);
      var before := Records(lines, n - 1, isStart);
      FlattenedPush(before, lines[n - 1]);
      JoinedKeepsText(before, lines[n - 1]);
    }
  }

  /** The lines in front of the first start stand alone. */
  lemma {:induction false} LinesBeforeStart(lines: seq<seq<Byte>>, n: nat, isStart: seq<Byte> -> bool)
    requires n <= |lines| && forall i :: 0 <= i < n ==> !isStart(lines[i])
    ensures Records(lines, n, isStart) == lines[..n]
  {
    if n > 0 {
      LinesBeforeStart(lines, n - 1, isStart);
      assert lines[..n] == lines[..n - 1] + [lines[n - 1]];
    }
  }

  /** From a start on, the lines up to the next start are one record. */
  lemma {:induction false} RecordFromStart(lines: seq<seq<Byte>>, i: nat, j: nat, isStart: seq<Byte> -> bool)
    requires i < j <= |lines| && isStart(lines[i]) && forall k :: i < k < j ==> !isStart(lines[k])
    ensures Records(lines, j, isStart) == Records(lines, i, isStart) + [Flattened(lines[i..j])]
  {
    var before := Records(lines, i, isStart);
    if j == i + 1 {
      assert Begins(lines, j - 1, isStart) && lines[j - 1] == lines[i];
      FlattenedPush([], lines[i]);
      assert lines[i..j] == [] + [lines[i]];
      assert [] + lines[i] == lines[i];
    } else {
      RecordFromStart(lines, i, j - 1, isStart);
      assert lines[i..j] == lines[i..j - 1] + [lines[j - 1]];
      FlattenedPush(lines[i..j - 1], lines[j - 1]);
      assert (before + [Flattened(lines[i..j - 1])])[..|before|] == before;
    }
  }

  lemma LinesNotEmpty(lines: seq<seq<Byte>>)
    requires AreLines(lines)
    ensures forall i :: 0 <= i < |lines| ==> lines[i] != []
  {
    forall i | 0 <= i < |lines| ensures lines[i] != [] {
      assert IsLine(lines[i], i == |lines| - 1);
    }
  }

  function WithCurrent(records: seq<seq<Byte>>, current: seq<Byte>): seq<seq<Byte>> {
    if current == [] then records else records + [current]
  }

  method BuildTextRecords(lines: seq<seq<Byte>>, isStart: seq<Byte> -> bool) returns (records: seq<seq<Byte>>)
    requires forall i :: 0 <= i < |lines| ==> lines[i] != []
    ensures records == Records(lines, |lines|, isStart)
  {
    records := [];
    var current: seq<Byte> := [];
    var canGroup := false;
    for i := 0 to |lines|
      invariant WithCurrent(records, current) == Records(lines, i, isStart)
      invariant !canGroup ==> current == [] && forall j :: 0 <= j < i ==> !isStart(lines[j])
      invariant canGroup ==> current != [] && exists j :: 0 <= j < i && isStart(lines[j])
    {
      var line := lines[i];
      var start := isStart(line);
      if start {
        canGroup := true;
      }
      if canGroup && start && current != [] {
        records := records + [current];
        current := [];
      }
      if !canGroup && line != [] {
        records := records + [line];
        continue;
      }
      assert [] + line == line && (records + [current])[..|records|] == records;
      current := current + line;
    }
    if current != [] {
      records := records + [current];
    }
  }

  /** What starts a record, by format: in JSON and XML every line does. */
  function StartOf(format: TextFormat): seq<Byte> -> bool {
    if format == Text then IsTextRecordStart else (_: seq<Byte>) => true
  }

  ghost predicate AreRecordsOf(records: seq<seq<Byte>>, text: seq<Byte>, isStart: seq<Byte> -> bool) {
    exists lines: seq<seq<Byte>> :: AreLines(lines) && Flattened(lines) == text && records == Records(lines, |lines|, isStart)
  }

  /** `detected` is the format found when the caller leaves it open. */
  method BuildRecords(text: seq<Byte>, format: TextFormat, detected: TextFormat) returns (records: seq<seq<Byte>>)
    requires detected != Auto
    ensures AreRecordsOf(records, text, StartOf(if format == Auto then detected else format))
    ensures Flattened(records) == text && forall i :: 0 <= i < |records| ==> records[i] != []
  {
    var lines := SplitLinesKeepEol(text);
    var chosen := if format == Auto then detected else format;
    LinesNotEmpty(lines);
    RecordsPartition(lines, |lines|, StartOf(chosen));
    assert lines[..|lines|] == lines;
    if chosen == Json || chosen == Xml {
      records := [];
      for i := 0 to |lines|
        invariant records == Records(lines, i, StartOf(chosen))
      {
        if lines[i] != [] {
          records := records + [lines[i]];
        }
      }
      return;
    }
    records := BuildTextRecords(lines, IsTextRecordStart);
  }
}
