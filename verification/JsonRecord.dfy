/** JSON records: the escaping printer, and the lenient parser that reads them back. */
module JsonRecords {
  import opened LogRecords
  import opened Wrappers

  // Printing

  function HexDigit(d: nat): char
    requires d < 16
  {
    "0123456789ABCDEF"[d]
  }

  function EscapedChar(c: char): string {
    if c == '"' then "\\\""
    else if c == '\\' then "\\\\"
    else if c == 8 as char then "\\b"
    else if c == 12 as char then "\\f"
    else if c == '\n' then "\\n"
    else if c == '\r' then "\\r"
    else if c == '\t' then "\\t"
    else if c as int < 0x20 then "\\u00" + [HexDigit(c as int / 16), HexDigit(c as int % 16)]
    else [c]
  }

  function Escaped(s: string): string {
    if s == "" then "" else Escaped(s[..|s| - 1]) + EscapedChar(s[|s| - 1])
  }

  function Quoted(s: string): string {
    "\"" + Escaped(s) + "\""
  }

  method AppendEscapedChar(output: string, c: char) returns (r: string)
    ensures r == output + EscapedChar(c)
  {
    match c {
      case '"' => r := output + "\\\"";
      case '\\' => r := output + "\\\\";
      case '\n' => r := output + "\\n";
      case '\r' => r := output + "\\r";
      case '\t' => r := output + "\\t";
      case _ =>
        if c == 8 as char {
          r := output + "\\b";
        } else if c == 12 as char {
          r := output + "\\f";
        } else if c as int < 0x20 {
          r := output + "\\u00";
          r := r + [HexDigit(c as int / 16)];
          r := r + [HexDigit(c as int % 16)];
        } else {
          r := output + [c];
        }
    }
  }

  method AppendJsonEscaped(output: string, value: string) returns (r: string)
    ensures r == output + Quoted(value)
  {
    r := output + "\"";
    for i := 0 to |value|
      invariant r == output + ("\"" + Escaped(value[..i]))
    {
      r := AppendEscapedChar(r, value[i]);
      EscapedPush(value, i);
      Regroup(output, "\"" + Escaped(value[..i]), EscapedChar(value[i]));
      Regroup("\"", Escaped(value[..i]), EscapedChar(value[i]));
    }
    assert value[..|value|] == value;
    Regroup(output, "\"" + Escaped(value), "\"");
    r := r + "\"";
  }

  lemma EscapedPush(s: string, i: nat)
    requires i < |s|
    ensures Escaped(s[..i + 1]) == Escaped(s[..i]) + EscapedChar(s[i])
  {
    assert s[..i + 1][..i] == s[..i];
  }

  lemma Regroup<T>(a: seq<T>, b: seq<T>, c: seq<T>)
    ensures a + b + c == a + (b + c)
  {
  }

  function FieldText(f: Field): string {
    Quoted(f.name) + ":" + Quoted(f.value)
  }

  /** The printed fields from the i-th on, each after a comma, and the closing brace. */
  function TailText(fields: seq<Field>, i: nat): string
    decreases |fields| - i
  {
    if i >= |fields| then "}" else "," + (FieldText(fields[i]) + TailText(fields, i + 1))
  }

  function Formatted(fields: seq<Field>): string {
    if fields == [] then "{}" else "{" + (FieldText(fields[0]) + TailText(fields, 1))
  }

  method AppendField(output: string, f: Field) returns (r: string)
    ensures r == output + FieldText(f)
  {
    r := AppendJsonEscaped(output, f.name);
    r := r + ":";
    r := AppendJsonEscaped(r, f.value);
    Regroup(output, Quoted(f.name), ":");
    Regroup(output, Quoted(f.name) + ":", Quoted(f.value));
  }

  method FormatJsonRecord(fields: seq<Field>) returns (output: string)
    ensures output == Formatted(fields)
  {
    output := "{";
    for i := 0 to |fields|
      invariant if i == 0 then output == "{" else output + TailText(fields, i) == Formatted(fields)
    {
      ghost var before, f, tail := output, FieldText(fields[i]), TailText(fields, i + 1);
      if i > 0 {
        output := output + ",";
      }
      output := AppendField(output, fields[i]);
      if i > 0 {
        Regroup(before + ",", f, tail);
        Regroup(before, ",", f + tail);
      } else {
        Regroup("{", f, tail);
      }
    }
    output := output + "}";
  }

  // Parsing

  function Unescaped(c: char): char {
    match c
    case 'b' => 8 as char
    case 'f' => 12 as char
    case 'n' => '\n'
    case 'r' => '\r'
    case 't' => '\t'
    case _ => c
  }

  /** A string's value and the text behind its closing quote, from inside the string on. */
  function ReadBody(t: string, value: string): (r: Option<(string, string)>)
    ensures r.Some? ==> |r.value.1| < |t|
  {
    if t == "" then None
    else if t[0] == '"' then Some((value, t[1..]))
    else if t[0] != '\\' then ReadBody(t[1..], value + [t[0]])
    else if |t| < 2 then None
    else if t[1] != 'u' then ReadBody(t[2..], value + [Unescaped(t[1])])
    else if |t| < 6 then None
    else ReadBody(t[6..], value + t[..6])
  }

  function ReadString(t: string): (r: Option<(string, string)>)
    ensures r.Some? ==> |r.value.1| < |t|
  {
    if t == "" || t[0] != '"' then None else ReadBody(t[1..], "")
  }

  /** A position in `text` stands for the text from there on. */
  ghost predicate Stands(r: Option<(string, nat)>, text: string, spec: Option<(string, string)>) {
    if r.None? then spec.None? else r.value.1 <= |text| && spec == Some((r.value.0, text[r.value.1..]))
  }

  /** What the reader's spec looks at from `pos` on. */
  lemma Suffixes(text: string, pos: nat)
    requires pos < |text|
    ensures text[pos..][1..] == text[pos + 1..]
    ensures pos + 2 <= |text| ==> text[pos..][2..] == text[pos + 2..]
    ensures pos + 6 <= |text| ==> text[pos..][6..] == text[pos + 6..]
  {
  }

  /** The six characters of an escape are copied in two parts. */
  lemma CopiedEscape(text: string, pos: nat, value: string)
    requires pos + 6 <= |text| && text[pos] == '\\' && text[pos + 1] == 'u'
    ensures value + "\\u" + text[pos + 2..pos + 6] == value + text[pos..][..6]
  {
    assert text[pos..][..6] == "\\u" + text[pos + 2..pos + 6];
  }

  method ReadJsonString(text: string, start: nat) returns (r: Option<(string, nat)>)
    requires start <= |text|
    ensures Stands(r, text, ReadString(text[start..]))
  {
    var pos := start;
    if pos >= |text| || text[pos] != '"' {
      return None;
    }
    pos := pos + 1;
    var value := "";
    assert text[start..][1..] == text[pos..];
    while pos < |text|
      invariant pos <= |text| && ReadBody(text[pos..], value) == ReadString(text[start..])
    {
      Suffixes(text, pos);
      var c := text[pos];
      pos := pos + 1;
      if c == '"' {
        return Some((value, pos));
      }
      if c != '\\' {
        value := value + [c];
        continue;
      }
      if pos >= |text| {
        return None;
      }
      c := text[pos];
      pos := pos + 1;
      if c == 'u' {
        if pos + 4 > |text| {
          return None;
        }
        CopiedEscape(text, pos - 2, value);
        value := value + "\\u";
        value := value + text[pos..pos + 4];
        pos := pos + 4;
      } else {
        value := value + [Unescaped(c)];
      }
    }
    r := None;
  }

  /** How far a value without quotes reaches. */
  function RawLength(t: string): (n: nat)
    ensures n <= |t|
  {
    if t != "" && t[0] != ',' && t[0] != '}' then 1 + RawLength(t[1..]) else 0
  }

  method ReadJsonRawValue(text: string, start: nat) returns (value: string, pos: nat)
    requires start <= |text|
    ensures pos == start + RawLength(text[start..]) && value == Trimmed(text[start..][..pos - start])
  {
    pos := start;
    while pos < |text| && text[pos] != ',' && text[pos] != '}'
      invariant start <= pos <= |text| && RawLength(text[start..]) == pos - start + RawLength(text[pos..])
    {
      assert text[pos..][1..] == text[pos + 1..];
      pos := pos + 1;
    }
    assert text[start..][..pos - start] == text[start..pos];
    value := Trim(text[start..pos]);
  }

  function ReadValue(t: string): (r: Option<(string, string)>)
    ensures r.Some? ==> |r.value.1| <= |t|
  {
    if t != "" && t[0] == '"' then ReadString(t)
    else
      var value := Trimmed(t[..RawLength(t)]);
      if value == "" then None else Some((value, t[RawLength(t)..]))
  }

  method ReadJsonValue(text: string, start: nat) returns (r: Option<(string, nat)>)
    requires start <= |text|
    ensures Stands(r, text, ReadValue(text[start..]))
  {
    if start < |text| && text[start] == '"' {
      r := ReadJsonString(text, start);
    } else {
      var value, pos := ReadJsonRawValue(text, start);
      assert text[start..][RawLength(text[start..])..] == text[pos..];
      r := if value == "" then None else Some((value, pos));
    }
  }

  /** A colon, the value behind it, and the text behind that and its spaces. */
  function ReadColonValue(t: string): (r: Option<(string, string)>)
    ensures r.Some? ==> |r.value.1| <= |t|
  {
    var colon := Skipped(t);
    if colon == "" || colon[0] != ':' then None
    else
      var value := ReadValue(Skipped(colon[1..]));
      if value.None? then None else Some((value.value.0, Skipped(value.value.1)))
  }

  function ReadField(t: string): (r: Option<(Field, string)>)
    ensures r.Some? ==> |r.value.1| < |t|
  {
    var name := ReadString(t);
    if name.None? then None
    else
      var value := ReadColonValue(name.value.1);
      if value.None? then None else Some((Field(name.value.0, value.value.0), value.value.1))
  }

  method ReadJsonField(text: string, start: nat) returns (r: Option<(Field, nat)>)
    requires start <= |text|
    ensures r.None? <==> ReadField(text[start..]).None?
    ensures r.Some? ==> start < r.value.1 <= |text|
    ensures r.Some? ==> ReadField(text[start..]) == Some((r.value.0, text[r.value.1..]))
  {
    var name := ReadJsonString(text, start);
    if name.None? {
      return None;
    }
    var value := ReadJsonColonValue(text, name.value.1);
    if value.None? {
      return None;
    }
    r := Some((Field(name.value.0, value.value.0), value.value.1));
  }

  method ReadJsonColonValue(text: string, start: nat) returns (r: Option<(string, nat)>)
    requires start <= |text|
    ensures Stands(r, text, ReadColonValue(text[start..]))
  {
    var pos := SkipSpaces(text, start);
    if pos >= |text| || text[pos] != ':' {
      return None;
    }
    assert text[pos..][1..] == text[pos + 1..];
    pos := SkipSpaces(text, pos + 1);
    var value := ReadJsonValue(text, pos);
    if value.None? {
      return None;
    }
    pos := SkipSpaces(text, value.value.1);
    r := Some((value.value.0, pos));
  }

  /** The rest of a record; commas between fields may be missing. */
  function ReadFields(t: string, fields: seq<Field>): Option<seq<Field>>
    decreases |t|
  {
    var start := Skipped(t);
    if t == "" then None
    else if start != "" && start[0] == '}' then Some(fields)
    else
      var field := ReadField(start);
      if field.None? then None
      else
        var next := field.value.1;
        if next != "" && next[0] == ',' then ReadFields(next[1..], fields + [field.value.0])
        else if next != "" && next[0] == '}' then Some(fields + [field.value.0])
        else ReadFields(next, fields + [field.value.0])
  }

  function Parsed(line: string): Option<seq<Field>> {
    var start := Skipped(Trimmed(line));
    if start == "" || start[0] != '{' then None else ReadFields(start[1..], [])
  }

  method ParseJsonRecord(line: string) returns (record: Option<seq<Field>>)
    ensures record == Parsed(line)
  {
    var text := Trim(line);
    if text == "" {
      return None;
    }
    var pos := SkipSpaces(text, 0);
    assert text[0..] == text;
    if pos >= |text| || text[pos] != '{' {
      return None;
    }
    assert text[pos..][1..] == text[pos + 1..];
    pos := pos + 1;
    var fields := [];
    while pos < |text|
      invariant pos <= |text| && ReadFields(text[pos..], fields) == Parsed(line)
    {
      var done;
      done, record, fields, pos := NextJsonField(text, pos, fields);
      if done {
        return;
      }
    }
    record := None;
  }

  /** One round of the record loop: the record's end, or one more field. */
  method NextJsonField(text: string, start: nat, before: seq<Field>)
    returns (done: bool, record: Option<seq<Field>>, fields: seq<Field>, pos: nat)
    requires start < |text|
    ensures done ==> ReadFields(text[start..], before) == record
    ensures !done ==> start < pos <= |text| && ReadFields(text[start..], before) == ReadFields(text[pos..], fields)
  {
    fields := before;
    pos := SkipSpaces(text, start);
    if pos < |text| && text[pos] == '}' {
      return true, Some(fields), fields, pos;
    }
    var field := ReadJsonField(text, pos);
    if field.None? {
      return true, None, fields, pos;
    }
    fields := fields + [field.value.0];
    pos := field.value.1;
    if pos < |text| && text[pos] == ',' {
      assert text[pos..][1..] == text[pos + 1..];
      return false, None, fields, pos + 1;
    }
    done := pos < |text| && text[pos] == '}';
    record := Some(fields);
  }

  // Reading what was printed

  /** Characters the printer has an escape of their own for, or none at all. */
  predicate Kept(c: char) {
    c as int >= 0x20 || c == 8 as char || c == 12 as char || c == '\n' || c == '\r' || c == '\t'
  }

  /** What comes back of a character: other controls return as the text of their escape. */
  function Returned(c: char): string {
    if Kept(c) then [c] else EscapedChar(c)
  }

  function ReturnedText(s: string): string {
    if s == "" then "" else ReturnedText(s[..|s| - 1]) + Returned(s[|s| - 1])
  }

  function ReturnedField(f: Field): Field {
    Field(ReturnedText(f.name), ReturnedText(f.value))
  }

  function ReturnedFields(fields: seq<Field>, i: nat := 0): seq<Field>
    decreases |fields| - i
  {
    if i >= |fields| then [] else [ReturnedField(fields[i])] + ReturnedFields(fields, i + 1)
  }

  predicate KeptText(s: string) {
    forall i :: 0 <= i < |s| ==> Kept(s[i])
  }

  predicate KeptRecord(fields: seq<Field>) {
    forall i :: 0 <= i < |fields| ==> KeptText(fields[i].name) && KeptText(fields[i].value)
  }

  /** Reading goes past one printed character at a time. */
  lemma ReadsChar(c: char, rest: string, value: string)
    ensures ReadBody(EscapedChar(c) + rest, value) == ReadBody(rest, value + Returned(c))
  {
    var e := EscapedChar(c);
    assert (e + rest)[|e|..] == rest;
    if !Kept(c) {
      assert (e + rest)[..6] == e;
    }
  }

  lemma {:induction false} ReadsEscaped(s: string, rest: string, value: string)
    ensures ReadBody(Escaped(s) + rest, value) == ReadBody(rest, value + ReturnedText(s))
  {
    if s == "" {
      assert Escaped(s) + rest == rest && value + ReturnedText(s) == value;
    } else {
      var front, last := s[..|s| - 1], s[|s| - 1];
      Regroup(Escaped(front), EscapedChar(last), rest);
      ReadsEscaped(front, EscapedChar(last) + rest, value);
      ReadsChar(last, rest, value + ReturnedText(front));
      Regroup(value, ReturnedText(front), Returned(last));
    }
  }

  lemma ReadsQuoted(s: string, rest: string)
    ensures ReadString(Quoted(s) + rest) == Some((ReturnedText(s), rest))
  {
    assert (Quoted(s) + rest)[1..] == Escaped(s) + ("\"" + rest);
    ReadsEscaped(s, "\"" + rest, "");
    assert ("\"" + rest)[1..] == rest;
    assert "" + ReturnedText(s) == ReturnedText(s);
  }

  lemma {:induction false} ReturnedIsText(s: string)
    ensures |ReturnedText(s)| >= |s| && (ReturnedText(s) == s <==> KeptText(s))
  {
    if s != "" {
      var rest, last := s[..|s| - 1], s[|s| - 1];
      ReturnedIsText(rest);
      if Kept(last) {
        assert s == rest + [last];
        assert ReturnedText(s)[..|ReturnedText(s)| - 1] == ReturnedText(rest);
      } else {
        assert |ReturnedText(s)| > |s|;
      }
    }
  }

  lemma {:induction false} ReturnedFieldsAt(fields: seq<Field>, i: nat, k: nat)
    requires i <= k < |fields|
    ensures |ReturnedFields(fields, i)| == |fields| - i && ReturnedFields(fields, i)[k - i] == ReturnedField(fields[k])
    decreases |fields| - i
  {
    if i < k {
      ReturnedFieldsAt(fields, i + 1, k);
    } else if i + 1 < |fields| {
      ReturnedFieldsAt(fields, i + 1, i + 1);
    }
  }

  lemma ReturnedFieldIs(f: Field)
    ensures ReturnedField(f) == f <==> KeptText(f.name) && KeptText(f.value)
  {
    ReturnedIsText(f.name);
    ReturnedIsText(f.value);
  }

  lemma ReturnedOneByOne(fields: seq<Field>)
    ensures |ReturnedFields(fields)| == |fields|
    ensures forall k :: 0 <= k < |fields| ==> ReturnedFields(fields)[k] == ReturnedField(fields[k])
  {
    forall k | 0 <= k < |fields|
      ensures |ReturnedFields(fields)| == |fields| && ReturnedFields(fields)[k] == ReturnedField(fields[k])
    {
      ReturnedFieldsAt(fields, 0, k);
    }
  }

  lemma ReturnedRecord(fields: seq<Field>)
    ensures ReturnedFields(fields) == fields <==> KeptRecord(fields)
  {
    ReturnedOneByOne(fields);
    forall k | 0 <= k < |fields|
      ensures ReturnedField(fields[k]) == fields[k] <==> KeptText(fields[k].name) && KeptText(fields[k].value)
    {
      ReturnedFieldIs(fields[k]);
    }
    var r := ReturnedFields(fields);
    assert r == fields <==> forall k :: 0 <= k < |fields| ==> r[k] == fields[k];
  }

  // Records as other printers write them

  /** A value in quotes, or one without, such as a number. */
  datatype Value = QuotedValue(text: string) | RawValue(text: string)

  /** A field with the spaces around its parts, and whether a comma follows. */
  datatype Item = Item(before: string, name: string, beforeColon: string, afterColon: string, value: Value,
                       behind: string, comma: bool)

  predicate IsRaw(s: string) {
    && s != "" && s[0] != '"' && !IsSpace(s[0]) && !IsSpace(s[|s| - 1])
    && forall i :: 0 <= i < |s| ==> s[i] != ',' && s[i] != '}'
  }

  /** Only a raw value needs something to end it: a comma, or the brace. */
  predicate IsItem(item: Item, last: bool) {
    && AllSpaces(item.before) && AllSpaces(item.beforeColon) && AllSpaces(item.afterColon) && AllSpaces(item.behind)
    && (item.value.RawValue? ==> IsRaw(item.value.text) && (item.comma || last))
  }

  predicate AreItems(items: seq<Item>) {
    forall i :: 0 <= i < |items| ==> IsItem(items[i], i == |items| - 1)
  }

  function ValueText(v: Value): string {
    if v.QuotedValue? then Quoted(v.text) else v.text
  }

  /** From the value on, with what follows the field. */
  function ValueTail(item: Item, rest: string): string {
    ValueText(item.value) + (item.behind + ((if item.comma then "," else "") + rest))
  }

  function ItemText(item: Item, rest: string): string {
    item.before + (Quoted(item.name) + (item.beforeColon + (":" + (item.afterColon + ValueTail(item, rest)))))
  }

  /** The fields from the i-th on and the closing brace. */
  function ItemsText(items: seq<Item>, i: nat, last: string): string
    decreases |items| - i
  {
    if i >= |items| then last + "}" else ItemText(items[i], ItemsText(items, i + 1, last))
  }

  /** What is read of a field. */
  function ItemField(item: Item): Field {
    Field(ReturnedText(item.name), ValueRead(item.value))
  }

  function ItemFields(items: seq<Item>, i: nat := 0): seq<Field>
    decreases |items| - i
  {
    if i >= |items| then [] else [ItemField(items[i])] + ItemFields(items, i + 1)
  }

  /** A raw value reaches up to the comma or the brace. */
  lemma {:induction false} RawReaches(s: string, rest: string)
    requires rest != "" && (rest[0] == ',' || rest[0] == '}')
    requires forall i :: 0 <= i < |s| ==> s[i] != ',' && s[i] != '}'
    ensures RawLength(s + rest) == |s|
  {
    if s == "" {
      assert s + rest == rest;
    } else {
      assert (s + rest)[1..] == s[1..] + rest;
      RawReaches(s[1..], rest);
    }
  }

  lemma ReadsRaw(raw: string, gap: string, stop: string)
    requires IsRaw(raw) && AllSpaces(gap) && stop != "" && (stop[0] == ',' || stop[0] == '}')
    ensures ReadValue((raw + gap) + stop) == Some((raw, stop))
  {
    var t := (raw + gap) + stop;
    assert forall i :: 0 <= i < |raw + gap| ==> (raw + gap)[i] != ',' && (raw + gap)[i] != '}';
    RawReaches(raw + gap, stop);
    assert t[..|raw + gap|] == raw + gap && t[|raw + gap|..] == stop;
    assert "" + raw + gap == raw + gap;
    TrimsSpaces("", raw, gap);
    assert t[0] == raw[0];
  }

  lemma SkippedAgain(t: string)
    ensures Skipped(Skipped(t)) == Skipped(t)
  {
    SkipsSpaces("", Skipped(t));
    assert "" + Skipped(t) == Skipped(t);
  }

  function ValueRead(v: Value): string {
    if v.QuotedValue? then ReturnedText(v.text) else v.text
  }

  /** A comma, or the brace, ends a raw value. */
  predicate Ends(tail: string) {
    Skipped(tail) != "" && (Skipped(tail)[0] == ',' || Skipped(tail)[0] == '}')
  }

  /** A value is read whole, quoted or raw, whatever spaces follow it. */
  lemma ReadsValue(v: Value, tail: string) returns (next: string)
    requires v.RawValue? ==> IsRaw(v.text) && Ends(tail)
    ensures ReadValue(ValueText(v) + tail) == Some((ValueRead(v), next)) && Skipped(next) == Skipped(tail)
  {
    if v.QuotedValue? {
      ReadsQuoted(v.text, tail);
      assert (ValueText(v) + tail)[0] == '"';
      next := tail;
    } else {
      var gap := SkippedSplits(tail);
      Regroup(v.text, gap, Skipped(tail));
      ReadsRaw(v.text, gap, Skipped(tail));
      SkippedAgain(tail);
      next := Skipped(tail);
    }
  }

  lemma ReadsColonValue(beforeColon: string, afterColon: string, v: Value, tail: string)
    requires AllSpaces(beforeColon) && AllSpaces(afterColon)
    requires v.RawValue? ==> IsRaw(v.text) && Ends(tail)
    ensures ReadColonValue(beforeColon + (":" + (afterColon + (ValueText(v) + tail)))) == Some((ValueRead(v), Skipped(tail)))
  {
    var value := ValueText(v) + tail;
    var colon := ":" + (afterColon + value);
    SkipsSpaces(beforeColon, colon);
    assert colon[1..] == afterColon + value;
    assert value[0] == ValueText(v)[0];
    SkipsSpaces(afterColon, value);
    var next := ReadsValue(v, tail);
  }

  /** What follows the value of the i-th field. */
  function Behind(items: seq<Item>, i: nat, last: string): string
    requires i < |items|
  {
    items[i].behind + ((if items[i].comma then "," else "") + ItemsText(items, i + 1, last))
  }

  lemma SkippedBehind(items: seq<Item>, i: nat, last: string)
    requires AreItems(items) && i < |items| && AllSpaces(last)
    ensures Skipped(Behind(items, i, last))
         == if items[i].comma then "," + ItemsText(items, i + 1, last) else Skipped(ItemsText(items, i + 1, last))
  {
    var rest := ItemsText(items, i + 1, last);
    if items[i].comma {
      SkipsSpaces(items[i].behind, "," + rest);
    } else {
      assert "" + rest == rest;
      SkipsMore(items[i].behind, rest);
    }
  }

  /** A record's next field begins with its quote, and behind the last one is the brace. */
  lemma SkippedItems(items: seq<Item>, i: nat, last: string)
    requires AreItems(items) && i <= |items| && AllSpaces(last)
    ensures Skipped(ItemsText(items, i, last))
         == if i == |items| then "}"
            else Quoted(items[i].name)
                 + (items[i].beforeColon
                    + (":" + (items[i].afterColon + (ValueText(items[i].value) + Behind(items, i, last)))))
  {
    if i == |items| {
      SkipsSpaces(last, "}");
    } else {
      var item := items[i];
      var value := ValueText(item.value) + Behind(items, i, last);
      SkipsSpaces(item.before, Quoted(item.name) + (item.beforeColon + (":" + (item.afterColon + value))));
    }
  }

  lemma RawValueEnds(items: seq<Item>, i: nat, last: string)
    requires AreItems(items) && i < |items| && AllSpaces(last) && items[i].value.RawValue?
    ensures Ends(Behind(items, i, last))
  {
    SkippedBehind(items, i, last);
    if !items[i].comma {
      SkippedItems(items, i + 1, last);
    }
  }

  lemma ReadsPrinted(item: Item, tail: string)
    requires AllSpaces(item.beforeColon) && AllSpaces(item.afterColon)
    requires item.value.RawValue? ==> IsRaw(item.value.text) && Ends(tail)
    ensures ReadField(Quoted(item.name) + (item.beforeColon + (":" + (item.afterColon + (ValueText(item.value) + tail)))))
         == Some((ItemField(item), Skipped(tail)))
  {
    ReadsQuoted(item.name, item.beforeColon + (":" + (item.afterColon + (ValueText(item.value) + tail))));
    ReadsColonValue(item.beforeColon, item.afterColon, item.value, tail);
  }

  lemma ReadsItem(items: seq<Item>, i: nat, last: string)
    requires AreItems(items) && i < |items| && AllSpaces(last)
    ensures ReadField(Skipped(ItemsText(items, i, last))) == Some((ItemField(items[i]), Skipped(Behind(items, i, last))))
  {
    if items[i].value.RawValue? {
      RawValueEnds(items, i, last);
    }
    SkippedItems(items, i, last);
    ReadsPrinted(items[i], Behind(items, i, last));
  }

  /** Spaces before a field or the brace do not matter. */
  lemma ReadsSkipped(t: string, acc: seq<Field>)
    requires Skipped(t) != ""
    ensures ReadFields(Skipped(t), acc) == ReadFields(t, acc)
  {
    SkippedAgain(t);
  }

  lemma {:induction false} ReadsItems(items: seq<Item>, i: nat, last: string, acc: seq<Field>)
    requires AreItems(items) && i <= |items| && AllSpaces(last)
    ensures ReadFields(ItemsText(items, i, last), acc) == Some(acc + ItemFields(items, i))
    decreases |items| - i
  {
    var t := ItemsText(items, i, last);
    SkippedItems(items, i, last);
    if i == |items| {
      assert acc + ItemFields(items, i) == acc;
    } else {
      var f := ItemField(items[i]);
      ReadsItem(items, i, last);
      SkippedBehind(items, i, last);
      SkippedItems(items, i + 1, last);
      ReadsItems(items, i + 1, last, acc + [f]);
      Regroup(acc, [f], ItemFields(items, i + 1));
      ReadsItemThen(t, f, Skipped(Behind(items, i, last)), acc);
      if !items[i].comma {
        ReadsSkipped(ItemsText(items, i + 1, last), acc + [f]);
      }
    }
  }

  /** One round of the record loop behind a field. */
  lemma ReadsItemThen(t: string, f: Field, next: string, acc: seq<Field>)
    requires Skipped(t) != "" && Skipped(t)[0] == '"' && ReadField(Skipped(t)) == Some((f, next)) && next != ""
    ensures ReadFields(t, acc) == if next[0] == ',' then ReadFields(next[1..], acc + [f]) else ReadFields(next, acc + [f])
  {
    if next[0] == '}' {
      SkipsSpaces("", next);
      assert "" + next == next;
    }
  }

  lemma {:induction false} ItemsEnd(items: seq<Item>, i: nat, last: string)
    ensures ItemsText(items, i, last) != "" && ItemsText(items, i, last)[|ItemsText(items, i, last)| - 1] == '}'
    decreases |items| - i
  {
    if i < |items| {
      ItemsEnd(items, i + 1, last);
    }
  }

  lemma ParsedInside(lead: string, inside: string, trail: string)
    requires AllSpaces(lead) && AllSpaces(trail) && inside != "" && inside[|inside| - 1] == '}'
    ensures Parsed(lead + ("{" + inside) + trail) == ReadFields(inside, [])
  {
    var text := "{" + inside;
    TrimsSpaces(lead, text, trail);
    SkippedPlain(text);
    assert text[1..] == inside;
  }

  lemma SkippedPlain(text: string)
    requires text != "" && !IsSpace(text[0])
    ensures Skipped(text) == text
  {
  }

  /** A record as another printer, such as the library itself, writes it: values in quotes or without,
      any spaces around the parts, commas missing behind quoted values, and a comma behind the last
      field. Every one is read, with its names and values. */
  lemma LooseRecordIsRead(lead: string, items: seq<Item>, last: string, trail: string)
    requires AreItems(items) && AllSpaces(lead) && AllSpaces(last) && AllSpaces(trail)
    ensures Parsed(lead + ("{" + ItemsText(items, 0, last)) + trail) == Some(ItemFields(items))
  {
    ItemsEnd(items, 0, last);
    ParsedInside(lead, ItemsText(items, 0, last), trail);
    ReadsItems(items, 0, last, []);
    assert [] + ItemFields(items) == ItemFields(items);
  }

  // Round trip

  /** The printed record seen as one of these. */
  function PrintedItems(fields: seq<Field>): seq<Item> {
    seq(|fields|, i requires 0 <= i < |fields| =>
      Item("", fields[i].name, "", "", QuotedValue(fields[i].value), "", i < |fields| - 1))
  }

  lemma PlainItem(name: string, value: string, comma: bool, rest: string)
    ensures ItemText(Item("", name, "", "", QuotedValue(value), "", comma), rest)
         == FieldText(Field(name, value)) + ((if comma then "," else "") + rest)
  {
    var tail := (if comma then "," else "") + rest;
    NothingBefore(tail);
    NothingBefore(Quoted(value) + tail);
    NothingBefore(":" + (Quoted(value) + tail));
    NothingBefore(Quoted(name) + (":" + (Quoted(value) + tail)));
    Regroup(Quoted(name) + ":", Quoted(value), tail);
    Regroup(Quoted(name), ":", Quoted(value) + tail);
  }

  lemma NothingBefore(text: string)
    ensures "" + text == text
  {
  }

  lemma {:induction false} PrintedIsItems(fields: seq<Field>, i: nat)
    requires i <= |fields|
    ensures ItemsText(PrintedItems(fields), i, "")
         == if i < |fields| then FieldText(fields[i]) + TailText(fields, i + 1) else "}"
    decreases |fields| - i
  {
    if i == |fields| {
      NothingBefore("}");
    } else {
      PrintedIsItems(fields, i + 1);
      var rest := ItemsText(PrintedItems(fields), i + 1, "");
      PlainItem(fields[i].name, fields[i].value, i < |fields| - 1, rest);
      NothingBefore(rest);
      assert Field(fields[i].name, fields[i].value) == fields[i];
    }
  }

  lemma {:induction false} PrintedIsRead(fields: seq<Field>, i: nat)
    ensures ItemFields(PrintedItems(fields), i) == ReturnedFields(fields, i)
    decreases |fields| - i
  {
    if i < |fields| {
      PrintedIsRead(fields, i + 1);
      assert ItemField(PrintedItems(fields)[i]) == ReturnedField(fields[i]);
    }
  }

  lemma NothingAround(text: string)
    ensures "" + text + "" == text
  {
  }

  lemma FormattedIsRead(fields: seq<Field>)
    ensures Parsed(Formatted(fields)) == Some(ItemFields(PrintedItems(fields)))
  {
    var inside := ItemsText(PrintedItems(fields), 0, "");
    PrintedIsItems(fields, 0);
    LooseRecordIsRead("", PrintedItems(fields), "", "");
    FormattedAlone(fields, inside);
  }

  lemma FormattedAlone(fields: seq<Field>, inside: string)
    requires inside == if fields == [] then "}" else FieldText(fields[0]) + TailText(fields, 1)
    ensures "" + ("{" + inside) + "" == Formatted(fields)
  {
    FormattedInside(fields, inside);
    NothingAround("{" + inside);
  }

  lemma FormattedInside(fields: seq<Field>, inside: string)
    requires inside == if fields == [] then "}" else FieldText(fields[0]) + TailText(fields, 1)
    ensures Formatted(fields) == "{" + inside
  {
  }

  /** Every record comes back, with each control character that has no short escape turned into the
      text of its escape; so a record comes back unchanged exactly when it has no such character. */
  lemma JsonRoundTrip(fields: seq<Field>)
    ensures Parsed(Formatted(fields)) == Some(ReturnedFields(fields))
    ensures Parsed(Formatted(fields)) == Some(fields) <==> KeptRecord(fields)
  {
    FormattedIsRead(fields);
    PrintedIsRead(fields, 0);
    ReturnedRecord(fields);
  }

  /** The code behind a control character's escape. */
  function HexValue(d: char): int {
    if '0' <= d <= '9' then d as int - '0' as int else d as int - 'A' as int + 10
  }

  /** The escape of a control character without a short one names it by its code. */
  lemma EscapeNamesCode(c: char)
    requires !Kept(c)
    ensures var e := EscapedChar(c);
      |e| == 6 && e[..4] == "\\u00" && HexValue(e[4]) * 16 + HexValue(e[5]) == c as int
  {
    HexDigitValue(c as int / 16);
    HexDigitValue(c as int % 16);
  }

  lemma HexDigitValue(d: nat)
    requires d < 16
    ensures HexValue(HexDigit(d)) == d
  {
  }

  // Records cut short

  /** A string cut inside is no string. */
  lemma {:induction false} CutBody(t: string, cut: nat, value: string)
    requires ReadBody(t, value).Some? && cut < |t| - |ReadBody(t, value).value.1|
    ensures ReadBody(t[..cut], value) == None
  {
    if cut > 0 && t[0] != '"' {
      if t[0] != '\\' {
        assert t[..cut][1..] == t[1..][..cut - 1];
        CutBody(t[1..], cut - 1, value + [t[0]]);
      } else if cut >= 2 && t[1] != 'u' {
        assert t[..cut][2..] == t[2..][..cut - 2];
        CutBody(t[2..], cut - 2, value + [Unescaped(t[1])]);
      } else if cut >= 6 {
        assert t[..cut][6..] == t[6..][..cut - 6] && t[..cut][..6] == t[..6];
        CutBody(t[6..], cut - 6, value + t[..6]);
      }
    }
  }

  lemma CutQuoted(s: string, cut: nat)
    requires cut < |Quoted(s)|
    ensures ReadString(Quoted(s)[..cut]) == None
  {
    if cut > 0 {
      ReadsQuoted(s, "");
      var t := Quoted(s) + "";
      assert t == Quoted(s);
      assert Quoted(s)[..cut][1..] == t[1..][..cut - 1];
      CutBody(t[1..], cut - 1, "");
    }
  }

  lemma CutColonValue(s: string, cut: nat)
    requires cut < |Quoted(s)|
    ensures ReadColonValue(":" + Quoted(s)[..cut]) == None
  {
    var q := Quoted(s)[..cut];
    SkippedPlain(":" + q);
    assert (":" + q)[1..] == q;
    if q != "" {
      SkippedPlain(q);
      CutQuoted(s, cut);
    }
  }

  lemma PrefixOfSum(a: string, b: string, cut: nat)
    requires cut <= |a| + |b|
    ensures (a + b)[..cut] == if cut <= |a| then a[..cut] else a + b[..cut - |a|]
  {
  }

  lemma PrefixOfField(a: string, b: string, cut: nat)
    requires cut <= |a + ":" + b|
    ensures (a + ":" + b)[..cut] == if cut <= |a| then a[..cut] else a + (":" + b[..cut - |a| - 1])
  {
  }

  lemma CutField(f: Field, cut: nat)
    requires cut < |FieldText(f)|
    ensures ReadField(FieldText(f)[..cut]) == None
  {
    var name := Quoted(f.name);
    PrefixOfField(name, Quoted(f.value), cut);
    if cut < |name| {
      CutQuoted(f.name, cut);
    } else if cut == |name| {
      assert name[..cut] == name + "";
      ReadsQuoted(f.name, "");
    } else {
      var q := Quoted(f.value)[..cut - |name| - 1];
      ReadsQuoted(f.name, ":" + q);
      CutColonValue(f.value, cut - |name| - 1);
    }
  }

  lemma ReadsWholeField(f: Field, rest: string)
    requires rest == "" || !IsSpace(rest[0])
    ensures ReadField(FieldText(f) + rest) == Some((ReturnedField(f), rest))
  {
    var value := Quoted(f.value) + rest;
    Regroup(Quoted(f.name) + ":", Quoted(f.value), rest);
    Regroup(Quoted(f.name), ":", value);
    ReadsQuoted(f.name, ":" + value);
    SkippedPlain(":" + value);
    assert (":" + value)[1..] == value;
    SkippedPlain(value);
    ReadsQuoted(f.value, rest);
  }

  lemma CutFirstField(f: Field, cut: nat, acc: seq<Field>)
    requires cut < |FieldText(f)|
    ensures ReadFields(FieldText(f)[..cut], acc) == None
  {
    if cut > 0 {
      SkippedPlain(FieldText(f)[..cut]);
      CutField(f, cut);
    }
  }

  lemma BehindField(f: Field, q: string, acc: seq<Field>)
    requires q == "" || q[0] == ','
    ensures ReadFields(FieldText(f) + q, acc) == if q == "" then None else ReadFields(q[1..], acc + [ReturnedField(f)])
  {
    ReadsWholeField(f, q);
    SkippedPlain(FieldText(f) + q);
  }

  lemma CutTail(fields: seq<Field>, i: nat, cut: nat)
    requires 0 < cut < |TailText(fields, i)|
    ensures i < |fields| && TailText(fields, i)[0] == ','
    ensures TailText(fields, i)[1..cut] == (FieldText(fields[i]) + TailText(fields, i + 1))[..cut - 1]
  {
    var more := FieldText(fields[i]) + TailText(fields, i + 1);
    assert ("," + more)[1..cut] == more[..cut - 1];
  }

  lemma CutBehindField(text: string, tail: string, cut: nat)
    requires |text| <= cut <= |text| + |tail|
    ensures (text + tail)[..cut] == text + tail[..cut - |text|]
  {
  }

  /** A cut behind a field: what is left behind it is refused, or there is nothing left. */
  lemma CutLater(f: Field, tail: string, cut: nat, acc: seq<Field>)
    requires |FieldText(f)| <= cut <= |FieldText(f)| + |tail|
    requires cut > |FieldText(f)| ==>
               tail[0] == ',' && ReadFields(tail[1..cut - |FieldText(f)|], acc + [ReturnedField(f)]) == None
    ensures ReadFields((FieldText(f) + tail)[..cut], acc) == None
  {
    var q := tail[..cut - |FieldText(f)|];
    CutBehindField(FieldText(f), tail, cut);
    BehindField(f, q, acc);
    if q != "" {
      assert q[1..] == tail[1..cut - |FieldText(f)|];
    }
  }

  lemma {:induction false} CutFields(f: Field, fields: seq<Field>, i: nat, cut: nat, acc: seq<Field>)
    requires cut < |FieldText(f)| + |TailText(fields, i)|
    ensures ReadFields((FieldText(f) + TailText(fields, i))[..cut], acc) == None
    decreases |fields| - i
  {
    var n, tail := |FieldText(f)|, TailText(fields, i);
    if cut < n {
      PrefixOfSum(FieldText(f), tail, cut);
      CutFirstField(f, cut, acc);
    } else {
      if cut > n {
        CutTail(fields, i, cut - n);
        CutFields(fields[i], fields, i + 1, cut - n - 1, acc + [ReturnedField(f)]);
      }
      CutLater(f, tail, cut, acc);
    }
  }

  /** What stands behind the opening brace of a printed record. */
  function Inside(fields: seq<Field>): string {
    if fields == [] then "}" else FieldText(fields[0]) + TailText(fields, 1)
  }

  lemma CutInside(fields: seq<Field>, cut: nat)
    requires cut < |Inside(fields)|
    ensures ReadFields(Inside(fields)[..cut], []) == None
  {
    if fields != [] {
      CutFields(fields[0], fields, 1, cut, []);
    }
  }

  lemma BracePrefix(inside: string, cut: nat, k: nat)
    requires 0 < k <= cut <= |inside| + 1
    ensures ("{" + inside)[..cut][1..k] == inside[..k - 1]
  {
  }

  /** A text that opens with a brace is read behind it, up to spaces at its end. */
  lemma ReadsBehindBrace(p: string) returns (k: nat)
    requires p != "" && p[0] == '{'
    ensures 0 < k <= |p| && Parsed(p) == ReadFields(p[1..k], [])
  {
    k := ChoppedIsPrefix(p);
    SkippedPlain(p);
    SkippedPlain(p[..k]);
    assert p[..k][1..] == p[1..k];
  }

  /** No record cut short is taken for one: every beginning of a printed record is refused. */
  lemma CutRecordIsRefused(fields: seq<Field>, cut: nat)
    requires cut < |Formatted(fields)|
    ensures Parsed(Formatted(fields)[..cut]) == None
  {
    FormattedInside(fields, Inside(fields));
    if cut > 0 {
      CutBraced(fields, ("{" + Inside(fields))[..cut], cut);
    }
  }

  lemma CutBraced(fields: seq<Field>, p: string, cut: nat)
    requires 0 < cut <= |Inside(fields)| && p == ("{" + Inside(fields))[..cut]
    ensures Parsed(p) == None
  {
    var k := ReadsBehindBrace(p);
    BracePrefix(Inside(fields), cut, k);
    CutInside(fields, k - 1);
  }

  // What is refused, and the escapes of other printers

  /** A line that does not open with a brace is no record. */
  lemma NeedsBrace(lead: string, text: string, trail: string)
    requires AllSpaces(lead) && AllSpaces(trail)
    requires text == "" || (text[0] != '{' && !IsSpace(text[0]) && !IsSpace(text[|text| - 1]))
    ensures Parsed(lead + text + trail) == None
  {
    TrimsSpaces(lead, text, trail);
    if text != "" {
      SkippedPlain(text);
    }
  }

  /** Behind a name only a colon is taken. */
  lemma NeedsColon(name: string, gap: string, c: char, rest: string, acc: seq<Field>)
    requires AllSpaces(gap) && c != ':' && !IsSpace(c)
    ensures ReadFields(Quoted(name) + (gap + ([c] + rest)), acc) == None
  {
    var text := Quoted(name) + (gap + ([c] + rest));
    SkippedPlain(text);
    ReadsQuoted(name, gap + ([c] + rest));
    SkipsSpaces(gap, [c] + rest);
  }

  /** The escapes of JSON: each stands for one character, and an unknown one for itself. */
  lemma ReadsEscapeOf(c: char, rest: string, value: string)
    requires c != 'u'
    ensures ReadBody("\\" + [c] + rest, value)
         == ReadBody(rest, value + [if c == 'b' then 8 as char else if c == 'f' then 12 as char
                                    else if c == 'n' then 10 as char else if c == 'r' then 13 as char
                                    else if c == 't' then 9 as char else c])
  {
    var t := "\\" + [c] + rest;
    assert t[2..] == rest;
  }
}
