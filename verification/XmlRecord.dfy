/** XML records: the escaping printer, and the parser that reads them back by searching for tags. */
module XmlRecords {
  import opened LogRecords
  import opened Wrappers

  const SPECIAL: set<char> := {'"', '\'', '<', '>', '&'}

  function Entity(c: char): string
    requires c in SPECIAL
  {
    if c == '&' then "&amp;" else if c == '<' then "&lt;" else if c == '>' then "&gt;"
    else if c == '"' then "&quot;" else "&apos;"
  }

  /** The predefined entities of section 4.6 of XML 1.0. */
  lemma PredefinedEntities()
    ensures Escaped("&", SPECIAL) == "&amp;" && Escaped("<", SPECIAL) == "&lt;" && Escaped(">", SPECIAL) == "&gt;"
    ensures Escaped("\"", SPECIAL) == "&quot;" && Escaped("'", SPECIAL) == "&apos;"
  {
    forall c | c in SPECIAL ensures Escaped([c], SPECIAL) == Entity(c) {
      assert [c][1..] == "" && Escaped("", SPECIAL) == "";
    }
  }

  /** A text with the characters of `which` replaced by their entities. */
  function Escaped(text: string, which: set<char>): string
    requires which <= SPECIAL
  {
    if text == "" then "" else EscapedChar(text[0], which) + Escaped(text[1..], which)
  }

  function EscapedChar(c: char, which: set<char>): string
    requires which <= SPECIAL
  {
    if c in which then Entity(c) else [c]
  }

  method AppendXmlEscaped(output: string, value: string) returns (r: string)
    ensures r == output + Escaped(value, SPECIAL)
  {
    r := output;
    for i := 0 to |value|
      invariant r + Escaped(value[i..], SPECIAL) == output + Escaped(value, SPECIAL)
    {
      ghost var before, rest := r, Escaped(value[i + 1..], SPECIAL);
      assert value[i..][1..] == value[i + 1..];
      match value[i] {
        case '&' => r := r + "&amp;";
        case '<' => r := r + "&lt;";
        case '>' => r := r + "&gt;";
        case '"' => r := r + "&quot;";
        case '\'' => r := r + "&apos;";
        case _ => r := r + [value[i]];
      }
      Regroup(before, EscapedChar(value[i], SPECIAL), rest);
    }
  }

  lemma Regroup(a: string, b: string, c: string)
    ensures a + b + c == a + (b + c)
  {
  }

  // Searching and replacing

  predicate StartsWith(t: string, what: string) {
    |what| <= |t| && t[..|what|] == what
  }

  /** `what` occurs at `k`, and nowhere before. */
  ghost predicate IsFirst(t: string, what: string, k: nat) {
    k <= |t| && StartsWith(t[k..], what) && forall i :: 0 <= i < k ==> !StartsWith(t[i..], what)
  }

  /** Where `what` first occurs. */
  ghost function Find(t: string, what: string): (r: Option<nat>)
    ensures r.Some? ==> r.value + |what| <= |t|
  {
    if exists k: nat :: IsFirst(t, what, k) then
      var k: nat :| IsFirst(t, what, k);
      Some(k)
    else None
  }

  lemma FindIs(t: string, what: string, k: nat)
    requires IsFirst(t, what, k)
    ensures Find(t, what) == Some(k)
  {
    var other := Find(t, what).value;
    assert IsFirst(t, what, other);
  }

  lemma {:induction false} OccursMeansFound(t: string, what: string, k: nat)
    requires k <= |t| && StartsWith(t[k..], what)
    ensures Find(t, what).Some?
  {
    if !IsFirst(t, what, k) {
      var i :| 0 <= i < k && StartsWith(t[i..], what);
      OccursMeansFound(t, what, i);
    }
  }

  method FindFrom(text: string, what: string, start: nat) returns (r: Option<nat>)
    requires start <= |text|
    ensures r.None? <==> Find(text[start..], what).None?
    ensures r.Some? ==> start <= r.value && Find(text[start..], what) == Some(r.value - start)
  {
    ghost var t := text[start..];
    for pos := start to |text| + 1
      invariant forall i :: 0 <= i < pos - start ==> !StartsWith(t[i..], what)
    {
      assert t[pos - start..] == text[pos..];
      if StartsWith(text[pos..], what) {
        FindIs(t, what, pos - start);
        return Some(pos);
      }
    }
    r := None;
  }

  function Replaced(t: string, entity: string, c: char): string
    requires entity != ""
  {
    if t == "" then ""
    else if StartsWith(t, entity) then [c] + Replaced(t[|entity|..], entity, c)
    else [t[0]] + Replaced(t[1..], entity, c)
  }

  lemma {:induction false} CopiesFrom(t: string, entity: string, c: char, i: nat, k: nat)
    requires entity != "" && i <= k <= |t| && forall j :: i <= j < k ==> !StartsWith(t[j..], entity)
    ensures Replaced(t[i..], entity, c) == t[i..k] + Replaced(t[k..], entity, c)
    decreases k - i
  {
    if i < k {
      assert t[i..][0] == t[i] && t[i..][1..] == t[i + 1..];
      CopiesFrom(t, entity, c, i + 1, k);
      Regroup([t[i]], t[i + 1..k], Replaced(t[k..], entity, c));
      assert [t[i]] + t[i + 1..k] == t[i..k];
    }
  }

  lemma CopiesUpTo(t: string, entity: string, c: char, k: nat)
    requires entity != "" && k <= |t| && forall i :: 0 <= i < k ==> !StartsWith(t[i..], entity)
    ensures Replaced(t, entity, c) == t[..k] + Replaced(t[k..], entity, c)
  {
    CopiesFrom(t, entity, c, 0, k);
    assert t[0..] == t && t[0..k] == t[..k];
  }

  lemma NothingReplaced(t: string, entity: string, c: char)
    requires entity != "" && Find(t, entity).None?
    ensures Replaced(t, entity, c) == t
  {
    forall i | 0 <= i < |t| ensures !StartsWith(t[i..], entity) {
      if StartsWith(t[i..], entity) {
        OccursMeansFound(t, entity, i);
      }
    }
    CopiesUpTo(t, entity, c, |t|);
    assert t[..|t|] == t && t[|t|..] == "";
  }

  lemma ReplacedAtFind(t: string, entity: string, c: char, k: nat)
    requires entity != "" && Find(t, entity) == Some(k)
    ensures Replaced(t, entity, c) == t[..k] + ([c] + Replaced(t[k + |entity|..], entity, c))
  {
    assert IsFirst(t, entity, k);
    CopiesUpTo(t, entity, c, k);
    assert t[k..][|entity|..] == t[k + |entity|..];
  }

  function Spliced(text: string, at: nat, n: nat, c: char): string
    requires at + n <= |text|
  {
    text[..at] + [c] + text[at + n..]
  }

  lemma Rejoined(a: string, b: string, c: string, rest: string)
    ensures ((a + b) + c) + rest == a + (b + (c + rest))
  {
    Regroup(a + b, c, rest);
    Regroup(a, b, c + rest);
  }

  /** Replacing in a text whose first entity is at `k`, behind what has been replaced. */
  lemma ReplacedBehind(before: string, t: string, entity: string, c: char, k: nat)
    requires entity != "" && Find(t, entity) == Some(k)
    ensures ((before + t[..k]) + [c]) + Replaced(t[k + |entity|..], entity, c) == before + Replaced(t, entity, c)
  {
    ReplacedAtFind(t, entity, c, k);
    Rejoined(before, t[..k], [c], Replaced(t[k + |entity|..], entity, c));
  }

  /** A replacement at `at`, for a loop that goes on at `pos`: what is done, and what is left. */
  lemma SplicedParts(text: string, pos: nat, at: nat, n: nat, c: char) returns (done: string, rest: string)
    requires pos <= at && at + n <= |text|
    ensures done == (text[..pos] + text[pos..][..at - pos]) + [c] && rest == text[pos..][at - pos + n..]
    ensures Spliced(text, at, n, c)[..at + 1] == done && Spliced(text, at, n, c)[at + 1..] == rest
  {
    done, rest := (text[..pos] + text[pos..][..at - pos]) + [c], text[pos..][at - pos + n..];
  }

  lemma ReplaceStep(text: string, pos: nat, at: nat, entity: string, c: char) returns (done: string, rest: string)
    requires entity != "" && pos <= at && at + |entity| <= |text| && Find(text[pos..], entity) == Some(at - pos)
    ensures Spliced(text, at, |entity|, c)[..at + 1] == done && Spliced(text, at, |entity|, c)[at + 1..] == rest
    ensures done + Replaced(rest, entity, c) == text[..pos] + Replaced(text[pos..], entity, c)
  {
    ReplacedBehind(text[..pos], text[pos..], entity, c, at - pos);
    done, rest := SplicedParts(text, pos, at, |entity|, c);
  }

  /** Replaces in place, going on behind each replacement. */
  method ReplaceAll(value: string, entity: string, c: char) returns (text: string)
    requires entity != ""
    ensures text == Replaced(value, entity, c)
  {
    text := value;
    var pos: nat := 0;
    ghost var done, rest := "", value;
    while true
      invariant pos <= |text| && text[..pos] == done && text[pos..] == rest
      invariant done + Replaced(rest, entity, c) == Replaced(value, entity, c)
      decreases |text| - pos
    {
      var at := FindFrom(text, entity, pos);
      if at.None? {
        NothingReplaced(rest, entity, c);
        assert text == done + rest;
        return;
      }
      done, rest := ReplaceStep(text, pos, at.value, entity, c);
      text := Spliced(text, at.value, |entity|, c);
      pos := at.value + 1;
    }
  }

  method XmlUnescape(value: string) returns (r: string)
    ensures r == Unescaped(value)
  {
    r := ReplaceAll(value, "&quot;", '"');
    r := ReplaceAll(r, "&apos;", '\'');
    r := ReplaceAll(r, "&lt;", '<');
    r := ReplaceAll(r, "&gt;", '>');
    r := ReplaceAll(r, "&amp;", '&');
  }

  function Unescaped(value: string): string {
    Replaced(Replaced(Replaced(Replaced(Replaced(value, Entity('"'), '"'), Entity('\''), '\''), Entity('<'), '<'),
                      Entity('>'), '>'), Entity('&'), '&')
  }

  // Unescaping undoes escaping

  lemma {:induction false} CopiesWithoutAmpersand(w: string, rest: string, entity: string, c: char)
    requires '&' !in w && entity != "" && entity[0] == '&'
    ensures Replaced(w + rest, entity, c) == w + Replaced(rest, entity, c)
  {
    if w == "" {
      assert w + rest == rest;
    } else {
      assert (w + rest)[1..] == w[1..] + rest;
      assert (w + rest)[0] != '&';
      CopiesWithoutAmpersand(w[1..], rest, entity, c);
    }
  }

  /** One entity is no beginning of another. */
  lemma EntitiesDiffer(c: char, d: char, rest: string)
    requires c in SPECIAL && d in SPECIAL && c != d
    ensures !StartsWith(Entity(d) + rest, Entity(c))
  {
    var t, n := Entity(d) + rest, |Entity(c)|;
    if n <= |t| {
      assert t[..n][1] == t[1] && t[..n][2] == t[2];
    }
  }

  lemma ReplacesOwnEntity(c: char, rest: string)
    requires c in SPECIAL
    ensures Replaced(Entity(c) + rest, Entity(c), c) == [c] + Replaced(rest, Entity(c), c)
  {
    var t := Entity(c) + rest;
    assert t[..|Entity(c)|] == Entity(c) && t[|Entity(c)|..] == rest;
  }

  lemma KeepsOtherEntity(c: char, d: char, rest: string)
    requires c in SPECIAL && d in SPECIAL && c != d
    ensures Replaced(Entity(d) + rest, Entity(c), c) == Entity(d) + Replaced(rest, Entity(c), c)
  {
    EntitiesDiffer(c, d, rest);
    var t, tail := Entity(d) + rest, Entity(d)[1..];
    assert t[1..] == tail + rest;
    CopiesWithoutAmpersand(tail, rest, Entity(c), c);
    Regroup([t[0]], tail, Replaced(rest, Entity(c), c));
    assert [t[0]] + tail == Entity(d);
  }

  lemma KeepsPlainChar(c: char, d: char, rest: string)
    requires c in SPECIAL && d != '&'
    ensures Replaced([d] + rest, Entity(c), c) == [d] + Replaced(rest, Entity(c), c)
  {
    CopiesWithoutAmpersand([d], rest, Entity(c), c);
  }

  lemma ReplacesOne(d: char, which: set<char>, rest: string, c: char)
    requires which <= SPECIAL && '&' in which && c in which
    ensures Replaced(EscapedChar(d, which) + rest, Entity(c), c)
         == EscapedChar(d, which - {c}) + Replaced(rest, Entity(c), c)
  {
    if d == c {
      ReplacesOwnEntity(c, rest);
    } else if d in which {
      KeepsOtherEntity(c, d, rest);
    } else {
      KeepsPlainChar(c, d, rest);
    }
  }

  /** Replacing one kind of entity undoes the escaping of one kind of character, as long as
      ampersands were escaped. */
  lemma {:induction false} ReplacesKind(s: string, which: set<char>, c: char)
    requires which <= SPECIAL && '&' in which && c in which
    ensures Replaced(Escaped(s, which), Entity(c), c) == Escaped(s, which - {c})
  {
    if s != "" {
      ReplacesKind(s[1..], which, c);
      ReplacesOne(s[0], which, Escaped(s[1..], which), c);
    }
  }

  lemma {:induction false} NothingEscaped(s: string)
    ensures Escaped(s, {}) == s
  {
    if s != "" {
      NothingEscaped(s[1..]);
    }
  }

  /** The five passes, ampersands last, undo the escaping of every text. */
  lemma UnescapeUndoesEscape(s: string)
    ensures Unescaped(Escaped(s, SPECIAL)) == s
  {
    var s1, s2, s3, s4 := SPECIAL - {'"'}, SPECIAL - {'"', '\''}, SPECIAL - {'"', '\'', '<'}, {'&'};
    ReplacesKind(s, SPECIAL, '"');
    ReplacesKind(s, s1, '\'');
    assert s1 - {'\''} == s2;
    ReplacesKind(s, s2, '<');
    assert s2 - {'<'} == s3;
    ReplacesKind(s, s3, '>');
    assert s3 - {'>'} == s4;
    ReplacesKind(s, s4, '&');
    assert s4 - {'&'} == {};
    NothingEscaped(s);
  }

  // Printing a record

  function FieldText(f: Field): string {
    "<" + f.name + ">" + Escaped(f.value, SPECIAL) + "</" + f.name + ">"
  }

  function TailText(fields: seq<Field>, i: nat := 0): string
    decreases |fields| - i
  {
    if i >= |fields| then "</event>" else FieldText(fields[i]) + TailText(fields, i + 1)
  }

  function Formatted(fields: seq<Field>): string {
    "<event>" + TailText(fields)
  }

  method AppendField(output: string, f: Field) returns (r: string)
    ensures r == output + FieldText(f)
  {
    r := output + "<" + f.name + ">";
    r := AppendXmlEscaped(r, f.value);
    r := r + "</" + f.name + ">";
    assert output + "<" + f.name + ">" == output + ("<" + f.name + ">");
    Regroup(output, "<" + f.name + ">", Escaped(f.value, SPECIAL));
    Regroup(output, "<" + f.name + ">" + Escaped(f.value, SPECIAL), "</");
    Regroup(output, "<" + f.name + ">" + Escaped(f.value, SPECIAL) + "</", f.name);
    Regroup(output, "<" + f.name + ">" + Escaped(f.value, SPECIAL) + "</" + f.name, ">");
  }

  method FormatXmlRecord(fields: seq<Field>) returns (output: string)
    ensures output == Formatted(fields)
  {
    output := "<event>";
    for i := 0 to |fields|
      invariant output + TailText(fields, i) == Formatted(fields)
    {
      Regroup(output, FieldText(fields[i]), TailText(fields, i + 1));
      output := AppendField(output, fields[i]);
    }
    output := output + "</event>";
  }

  // Parsing a record

  /** The name in a tag ends at the first space. */
  function CutAtSpace(name: string): string {
    if name == "" || name[0] in {' ', '\t', '\r', '\n'} then "" else [name[0]] + CutAtSpace(name[1..])
  }

  /** Where `what` last occurs. */
  function FindLast(t: string, what: string): (r: Option<nat>)
    ensures r.Some? ==> r.value <= |t|
  {
    LastUpTo(t, what, |t|)
  }

  function LastUpTo(t: string, what: string, k: nat): (r: Option<nat>)
    requires k <= |t|
    ensures r.Some? ==> r.value <= k && StartsWith(t[r.value..], what)
  {
    if StartsWith(t[k..], what) then Some(k) else if k == 0 then None else LastUpTo(t, what, k - 1)
  }

  /** What one round of the field loop finds: no field before the end, a broken one, or a field, with
      its value still escaped, and the text behind it. */
  datatype Step = End | Broken | Read(field: Field, rest: string)

  function CloseTag(name: string): string {
    "</" + name + ">"
  }

  /** A field from behind its opening tag on. */
  ghost function ReadValue(name: string, behind: string): (r: Step)
    ensures !r.End? && (r.Read? ==> |r.rest| < |behind|)
  {
    var valueEnd := Find(behind, CloseTag(name));
    if valueEnd.None? then Broken
    else Read(Field(name, behind[..valueEnd.value]), behind[valueEnd.value + |CloseTag(name)|..])
  }

  /** A field from inside its opening tag on. */
  ghost function ReadInside(inside: string): (r: Step)
    ensures !r.End? && (r.Read? ==> |r.rest| < |inside|)
  {
    var close := Find(inside, ">");
    if close.None? then Broken else ReadValue(CutAtSpace(inside[..close.value]), inside[close.value + 1..])
  }

  /** `after` is how much text follows the end of the fields. */
  ghost function ReadField(t: string, after: nat): (r: Step)
    ensures r.Read? ==> |r.rest| < |t|
  {
    var open := Find(t, "<");
    if open.None? || |t| - open.value <= after || (open.value + 1 < |t| && t[open.value + 1] == '/') then End
    else ReadInside(t[open.value + 1..])
  }

  function Before(first: seq<Field>, rest: Option<seq<Field>>): Option<seq<Field>> {
    if rest.None? then None else Some(first + rest.value)
  }

  ghost function ReadFields(t: string, after: nat): Option<seq<Field>>
    decreases |t|
  {
    if |t| <= after then Some([])
    else match ReadField(t, after)
      case End => Some([])
      case Broken => None
      case Read(f, rest) => Before([f], ReadFields(rest, after))
  }

  /** Where the fields begin and end: behind the first tag, and at the last closing tag. */
  ghost function FieldBounds(text: string): (r: Option<(nat, nat)>)
    ensures r.Some? ==> r.value.0 <= r.value.1 <= |text|
  {
    var begin, end := Find(text, ">"), FindLast(text, "</");
    if text == "" || begin.None? || end.None? || begin.value >= end.value then None
    else Some((begin.value + 1, end.value))
  }

  ghost function RawParsed(text: string): Option<seq<Field>> {
    var bounds := FieldBounds(text);
    if bounds.None? then None else ReadFields(text[bounds.value.0..], |text| - bounds.value.1)
  }

  function UnescapedFields(fields: seq<Field>): seq<Field> {
    seq(|fields|, i requires 0 <= i < |fields| => Field(fields[i].name, Unescaped(fields[i].value)))
  }

  function Finished(raw: Option<seq<Field>>): Option<seq<Field>> {
    if raw.None? then None else Some(UnescapedFields(raw.value))
  }

  ghost function Parsed(line: string): Option<seq<Field>> {
    Finished(RawParsed(Trimmed(line)))
  }

  method FindLastIn(text: string, what: string) returns (r: Option<nat>)
    ensures r == FindLast(text, what)
  {
    var k: nat := |text|;
    while !StartsWith(text[k..], what)
      invariant k <= |text| && LastUpTo(text, what, k) == FindLast(text, what)
      decreases k
    {
      if k == 0 {
        return None;
      }
      k := k - 1;
    }
    r := Some(k);
  }

  method NameInTag(tag: string) returns (name: string)
    ensures name == CutAtSpace(tag)
  {
    name := "";
    for i := 0 to |tag|
      invariant name + CutAtSpace(tag[i..]) == CutAtSpace(tag)
    {
      if tag[i] in {' ', '\t', '\r', '\n'} {
        return;
      }
      assert tag[i..][1..] == tag[i + 1..];
      Regroup(name, [tag[i]], CutAtSpace(tag[i + 1..]));
      name := name + [tag[i]];
    }
  }

  lemma DropThen(text: string, a: nat, n: nat)
    requires a + n <= |text|
    ensures text[a..][..n] == text[a..a + n] && text[a..][n..] == text[a + n..]
  {
  }

  /** A field and the position behind it, in the whole text. */
  datatype StepAt = EndAt | BrokenAt | ReadAt(field: Field, next: nat)

  ghost predicate Stands(r: StepAt, text: string, spec: Step) {
    match r
    case EndAt => spec == End
    case BrokenAt => spec == Broken
    case ReadAt(f, next) => next <= |text| && spec == Read(f, text[next..])
  }

  method ReadXmlValue(text: string, begin: nat, name: string) returns (r: StepAt)
    requires begin <= |text|
    ensures Stands(r, text, ReadValue(name, text[begin..]))
  {
    var valueEnd := FindFrom(text, CloseTag(name), begin);
    if valueEnd.None? {
      return BrokenAt;
    }
    DropThen(text, begin, valueEnd.value - begin);
    DropThen(text, begin, valueEnd.value + |CloseTag(name)| - begin);
    r := ReadAt(Field(name, text[begin..valueEnd.value]), valueEnd.value + |CloseTag(name)|);
  }

  method ReadXmlInside(text: string, pos: nat) returns (r: StepAt)
    requires pos <= |text|
    ensures Stands(r, text, ReadInside(text[pos..]))
  {
    var close := FindFrom(text, ">", pos);
    if close.None? {
      return BrokenAt;
    }
    DropThen(text, pos, close.value - pos);
    DropThen(text, pos, close.value + 1 - pos);
    var name := NameInTag(text[pos..close.value]);
    r := ReadXmlValue(text, close.value + 1, name);
  }

  /** One round of the field loop. */
  method ReadXmlField(text: string, pos: nat, eventEnd: nat) returns (r: StepAt)
    requires pos <= |text| && eventEnd <= |text|
    ensures Stands(r, text, ReadField(text[pos..], |text| - eventEnd))
  {
    var open := FindFrom(text, "<", pos);
    if open.None? || open.value >= eventEnd {
      return EndAt;
    }
    if open.value + 1 < |text| && text[open.value + 1] == '/' {
      return EndAt;
    }
    DropThen(text, pos, open.value + 1 - pos);
    r := ReadXmlInside(text, open.value + 1);
  }

  method ParseXmlRecord(line: string) returns (record: Option<seq<Field>>)
    ensures record == Parsed(line)
  {
    var text := Trim(line);
    var bounds := FindFieldBounds(text);
    if bounds.None? {
      return None;
    }
    record := ReadXmlFields(text, bounds.value.0, bounds.value.1);
  }

  method FindFieldBounds(text: string) returns (r: Option<(nat, nat)>)
    ensures r == FieldBounds(text)
  {
    if text == "" {
      return None;
    }
    assert text[0..] == text;
    var eventBegin := FindFrom(text, ">", 0);
    var eventEnd := FindLastIn(text, "</");
    if eventBegin.None? || eventEnd.None? || eventBegin.value >= eventEnd.value {
      return None;
    }
    r := Some((eventBegin.value + 1, eventEnd.value));
  }

  method ReadXmlFields(text: string, start: nat, eventEnd: nat) returns (record: Option<seq<Field>>)
    requires start <= |text| && eventEnd <= |text|
    ensures record == Finished(ReadFields(text[start..], |text| - eventEnd))
  {
    var pos, fields := start, [];
    ghost var raw: seq<Field> := [];
    ghost var spec := ReadFields(text[start..], |text| - eventEnd);
    NothingBefore(spec);
    while pos < eventEnd
      invariant pos <= |text| && fields == UnescapedFields(raw)
      invariant Before(raw, ReadFields(text[pos..], |text| - eventEnd)) == spec
      decreases |text| - pos
    {
      var step := ReadXmlField(text, pos, eventEnd);
      ReadsOn(text[pos..], |text| - eventEnd, raw, ReadField(text[pos..], |text| - eventEnd));
      match step {
        case EndAt => return Some(fields);
        case BrokenAt => return None;
        case ReadAt(f, next) =>
          var value := XmlUnescape(f.value);
          UnescapesPushed(raw, f);
          fields := fields + [Field(f.name, value)];
          raw := raw + [f];
          pos := next;
      }
    }
    NothingMore(raw);
    record := Some(fields);
  }

  lemma UnescapesPushed(raw: seq<Field>, f: Field)
    ensures UnescapedFields(raw + [f]) == UnescapedFields(raw) + [Field(f.name, Unescaped(f.value))]
  {
  }

  lemma NothingMore(raw: seq<Field>)
    ensures Before(raw, Some([])) == Some(raw)
  {
    assert raw + [] == raw;
  }

  lemma NothingBefore(r: Option<seq<Field>>)
    ensures Before([], r) == r
  {
    if r.Some? {
      assert [] + r.value == r.value;
    }
  }

  lemma ReadsOn(t: string, after: nat, raw: seq<Field>, step: Step)
    requires |t| > after && ReadField(t, after) == step
    ensures step.End? ==> Before(raw, ReadFields(t, after)) == Some(raw)
    ensures step.Broken? ==> Before(raw, ReadFields(t, after)) == None
    ensures step.Read? ==>
              Before(raw, ReadFields(t, after)) == Before(raw + [step.field], ReadFields(step.rest, after))
  {
    NothingMore(raw);
    if step.Read? {
      var tail := ReadFields(step.rest, after);
      if tail.Some? {
        assert raw + ([step.field] + tail.value) == raw + [step.field] + tail.value;
      }
    }
  }

  // Round trip

  predicate IsSpaceInTag(c: char) {
    c in {' ', '\t', '\r', '\n'}
  }

  /** Names a record may have for its fields to come back. */
  predicate GoodName(name: string) {
    (forall i :: 0 <= i < |name| ==> name[i] != '>' && !IsSpaceInTag(name[i])) && (name != "" ==> name[0] != '/')
  }

  lemma HeadOfMatch(t: string, what: string)
    requires what != ""
    ensures StartsWith(t, what) ==> t != "" && t[0] == what[0]
  {
    if |what| <= |t| {
      assert t[..|what|][0] == t[0];
    }
  }

  lemma FindAfter(a: string, b: string, what: string)
    requires what != "" && what[0] !in a && StartsWith(b, what)
    ensures Find(a + b, what) == Some(|a|)
  {
    var t := a + b;
    assert t[|a|..] == b;
    forall i | 0 <= i < |a| ensures !StartsWith(t[i..], what) {
      assert t[i..][0] == a[i];
      HeadOfMatch(t[i..], what);
    }
    FindIs(t, what, |a|);
  }

  lemma NoneBefore(t: string, what: string, k: nat)
    requires Find(t, what) == Some(k) && |what| == 1
    ensures what[0] !in t[..k]
  {
    assert IsFirst(t, what, k);
    forall i | 0 <= i < k ensures t[i] != what[0] {
      assert !StartsWith(t[i..], what);
      assert t[i..][..1] == [t[i]];
    }
  }

  lemma {:induction false} CutMeans(name: string)
    ensures forall i :: 0 <= i < |CutAtSpace(name)| ==> !IsSpaceInTag(CutAtSpace(name)[i]) && CutAtSpace(name)[i] in name
    ensures CutAtSpace(name) == name <==> forall i :: 0 <= i < |name| ==> !IsSpaceInTag(name[i])
  {
    if name != "" && !IsSpaceInTag(name[0]) {
      CutMeans(name[1..]);
      assert name == [name[0]] + name[1..];
    }
  }

  lemma {:induction false} EscapedHasNoTag(s: string)
    ensures '<' !in Escaped(s, SPECIAL)
  {
    if s != "" {
      EscapedHasNoTag(s[1..]);
    }
  }

  /** A printed field: the opening tag, the escaped value, the closing tag. */
  lemma FieldTextParts(f: Field, rest: string)
    ensures FieldText(f) + rest == "<" + (f.name + (">" + (Escaped(f.value, SPECIAL) + (CloseTag(f.name) + rest))))
  {
    var name, value := f.name, Escaped(f.value, SPECIAL);
    assert FieldText(f) == "<" + name + ">" + value + CloseTag(name);
    Regroup("<" + name + ">" + value, CloseTag(name), rest);
    Regroup("<" + name + ">", value, CloseTag(name) + rest);
    Regroup("<" + name, ">", value + (CloseTag(name) + rest));
    Regroup("<", name, ">" + (value + (CloseTag(name) + rest)));
  }

  function EscapedField(f: Field): Field {
    Field(f.name, Escaped(f.value, SPECIAL))
  }

  /** A value as it stands in a record: its closing tag does not occur before its end. */
  ghost predicate Closes(value: string, name: string) {
    IsFirst(value + CloseTag(name), CloseTag(name), |value|)
  }

  lemma ReadsValue(name: string, value: string, rest: string)
    requires Closes(value, name)
    ensures ReadValue(name, value + (CloseTag(name) + rest)) == Read(Field(name, value), rest)
  {
    var close := CloseTag(name);
    var behind, alone := value + (close + rest), value + close;
    forall i | 0 <= i < |value| ensures !StartsWith(behind[i..], close) {
      assert behind[i..][..|close|] == alone[i..][..|close|];
    }
    assert behind[|value|..] == close + rest && behind[|value|..][..|close|] == close;
    FindIs(behind, close, |value|);
    assert behind[..|value|] == value && behind[|value| + |close|..] == rest;
  }

  /** What may follow a name in its tag. */
  predicate AreAttributes(s: string) {
    s == "" || (IsSpaceInTag(s[0]) && '>' !in s)
  }

  lemma {:induction false} CutsAttributes(name: string, attributes: string)
    requires AreAttributes(attributes) && forall i :: 0 <= i < |name| ==> !IsSpaceInTag(name[i])
    ensures CutAtSpace(name + attributes) == name
  {
    if name == "" {
      assert name + attributes == attributes;
    } else {
      assert (name + attributes)[1..] == name[1..] + attributes;
      CutsAttributes(name[1..], attributes);
    }
  }

  lemma ReadsInside(name: string, attributes: string, value: string, rest: string)
    requires GoodName(name) && AreAttributes(attributes) && Closes(value, name)
    ensures ReadInside(name + attributes + (">" + (value + (CloseTag(name) + rest)))) == Read(Field(name, value), rest)
  {
    var tag, behind := name + attributes, value + (CloseTag(name) + rest);
    var inside := tag + (">" + behind);
    FindAfter(tag, ">" + behind, ">");
    assert inside[..|tag|] == tag && inside[|tag| + 1..] == behind;
    CutsAttributes(name, attributes);
    ReadsValue(name, value, rest);
  }

  lemma OpensTag(inside: string, after: nat)
    requires after <= |inside|
    ensures ReadField("<" + inside, after) == if inside != "" && inside[0] == '/' then End else ReadInside(inside)
  {
    var t := "<" + inside;
    assert t[0..] == t && t[..1] == "<" && t[1..] == inside;
    FindIs(t, "<", 0);
  }

  lemma EscapedCloses(f: Field)
    ensures Closes(Escaped(f.value, SPECIAL), f.name)
  {
    var value, close := Escaped(f.value, SPECIAL), CloseTag(f.name);
    var t := value + close;
    EscapedHasNoTag(f.value);
    assert t[|value|..] == close;
    forall i | 0 <= i < |value| ensures !StartsWith(t[i..], close) {
      assert t[i..][0] == value[i];
      HeadOfMatch(t[i..], close);
    }
  }

  lemma ReadsField(f: Field, rest: string, after: nat)
    requires GoodName(f.name) && after <= |rest|
    ensures ReadField(FieldText(f) + rest, after) == Read(EscapedField(f), rest)
  {
    FieldTextParts(f, rest);
    OpensTag(f.name + (">" + (Escaped(f.value, SPECIAL) + (CloseTag(f.name) + rest))), after);
    EscapedCloses(f);
    assert f.name + "" == f.name;
    ReadsInside(f.name, "", Escaped(f.value, SPECIAL), rest);
  }

  /** A field with any other name is not read back. */
  lemma MisreadsField(f: Field, rest: string, after: nat)
    requires !GoodName(f.name) && after <= |rest|
    ensures var r := ReadField(FieldText(f) + rest, after); r.Read? ==> r.field.name != f.name
  {
    var inside := f.name + (">" + (Escaped(f.value, SPECIAL) + (CloseTag(f.name) + rest)));
    FieldTextParts(f, rest);
    OpensTag(inside, after);
    var close := Find(inside, ">");
    if close.Some? {
      NoneBefore(inside, ">", close.value);
      CutMeans(inside[..close.value]);
    }
  }

  predicate GoodNames(fields: seq<Field>, from: nat) {
    forall i :: from <= i < |fields| ==> GoodName(fields[i].name)
  }

  function Names(fields: seq<Field>): seq<string> {
    seq(|fields|, i requires 0 <= i < |fields| => fields[i].name)
  }

  lemma NamesSplit(f: Field, rest: seq<Field>)
    ensures Names([f] + rest) == [f.name] + Names(rest)
  {
  }

  function EscapedFields(fields: seq<Field>, i: nat := 0): seq<Field>
    decreases |fields| - i
  {
    if i >= |fields| then [] else [EscapedField(fields[i])] + EscapedFields(fields, i + 1)
  }

  /** With good names every field is read; otherwise the names read are not the printed ones. */
  ghost predicate Outcome(r: Option<seq<Field>>, fields: seq<Field>, i: nat)
    requires i <= |fields|
  {
    if GoodNames(fields, i) then r == Some(EscapedFields(fields, i))
    else r.Some? ==> Names(r.value) != Names(fields[i..])
  }

  lemma OutcomeBefore(r: Option<seq<Field>>, fields: seq<Field>, i: nat)
    requires i < |fields| && GoodName(fields[i].name) && Outcome(r, fields, i + 1)
    ensures Outcome(Before([EscapedField(fields[i])], r), fields, i)
  {
    assert fields[i..] == [fields[i]] + fields[i + 1..];
    NamesSplit(fields[i], fields[i + 1..]);
    if r.Some? {
      NamesSplit(EscapedField(fields[i]), r.value);
      assert ([fields[i].name] + Names(r.value))[1..] == Names(r.value);
      assert ([fields[i].name] + Names(fields[i + 1..]))[1..] == Names(fields[i + 1..]);
    }
  }

  lemma OutcomeOfBadField(step: Step, rest: Option<seq<Field>>, fields: seq<Field>, i: nat)
    requires i < |fields| && !GoodName(fields[i].name) && step.Read? && step.field.name != fields[i].name
    ensures Outcome(Before([step.field], rest), fields, i)
  {
    assert Names(fields[i..])[0] == fields[i].name;
    if rest.Some? {
      assert Names([step.field] + rest.value)[0] == step.field.name;
    }
  }

  lemma {:induction false} ReadsTail(fields: seq<Field>, i: nat)
    requires i <= |fields|
    ensures Outcome(ReadFields(TailText(fields, i), 8), fields, i)
    decreases |fields| - i
  {
    if i < |fields| {
      TailEnds(fields, i + 1);
      if GoodName(fields[i].name) {
        ReadsTail(fields, i + 1);
        ReadsOver(TailText(fields, i + 1), fields, i);
      } else {
        SpoilsTail(TailText(fields, i + 1), fields, i);
      }
    }
  }

  lemma ReadsOver(tail: string, fields: seq<Field>, i: nat)
    requires |tail| >= 8 && i < |fields| && GoodName(fields[i].name)
    requires Outcome(ReadFields(tail, 8), fields, i + 1)
    ensures Outcome(ReadFields(FieldText(fields[i]) + tail, 8), fields, i)
  {
    ReadsField(fields[i], tail, 8);
    ReadsPast(FieldText(fields[i]) + tail, EscapedField(fields[i]), tail);
    OutcomeBefore(ReadFields(tail, 8), fields, i);
  }

  lemma ReadsPast(t: string, f: Field, rest: string)
    requires |t| > 8 && ReadField(t, 8) == Read(f, rest)
    ensures ReadFields(t, 8) == Before([f], ReadFields(rest, 8))
  {
  }

  lemma SpoilsTail(tail: string, fields: seq<Field>, i: nat)
    requires |tail| >= 8 && i < |fields| && !GoodName(fields[i].name)
    ensures Outcome(ReadFields(FieldText(fields[i]) + tail, 8), fields, i)
  {
    MisreadsField(fields[i], tail, 8);
    BadFieldSpoils(FieldText(fields[i]) + tail, fields, i);
  }

  lemma BadFieldSpoils(t: string, fields: seq<Field>, i: nat)
    requires i < |fields| && !GoodName(fields[i].name)
    requires |t| > 8 && var r := ReadField(t, 8); r.Read? ==> r.field.name != fields[i].name
    ensures Outcome(ReadFields(t, 8), fields, i)
  {
    var step := ReadField(t, 8);
    if step.Read? {
      OutcomeOfBadField(step, ReadFields(step.rest, 8), fields, i);
    } else {
      assert |Names(fields[i..])| > 0;
    }
  }

  lemma {:induction false} LastIs(t: string, what: string, k: nat, j: nat)
    requires j <= k <= |t| && StartsWith(t[j..], what) && forall i :: j < i <= k ==> !StartsWith(t[i..], what)
    ensures LastUpTo(t, what, k) == Some(j)
    decreases k - j
  {
    if j < k {
      LastIs(t, what, k - 1, j);
    }
  }

  lemma {:induction false} TailEnds(fields: seq<Field>, i: nat)
    ensures |TailText(fields, i)| >= 8 && TailText(fields, i)[|TailText(fields, i)| - 8..] == "</event>"
    decreases |fields| - i
  {
    if i < |fields| {
      TailEnds(fields, i + 1);
      var tail := TailText(fields, i + 1);
      assert TailText(fields, i)[|TailText(fields, i)| - 8..] == tail[|tail| - 8..];
    }
  }

  /** The last closing tag of a printed record is its own. */
  lemma FindsEventEnd(text: string)
    requires |text| >= 8 && text[|text| - 8..] == "</event>"
    ensures FindLast(text, "</") == Some(|text| - 8)
  {
    var last := text[|text| - 8..];
    assert last[..2] == "</";
    forall i | |text| - 8 < i <= |text| ensures !StartsWith(text[i..], "</") {
      assert i < |text| ==> text[i..][0] == last[i - (|text| - 8)];
      HeadOfMatch(text[i..], "</");
    }
    LastIs(text, "</", |text|, |text| - 8);
  }

  lemma TrimsNothing(tail: string)
    requires |tail| >= 8 && tail[|tail| - 8..] == "</event>"
    ensures Trimmed("<event>" + tail) == "<event>" + tail
  {
    var text := "<event>" + tail;
    assert text[|text| - 1] == tail[|tail| - 1] == tail[|tail| - 8..][7];
    NothingToTrim(text);
  }

  lemma FindsEventBegin(tail: string)
    ensures Find("<event>" + tail, ">") == Some(6)
  {
    assert "<event>" + tail == "<event" + (">" + tail);
    FindAfter("<event", ">" + tail, ">");
  }

  /** The fields of a record are read between its opening tag and its last closing tag. */
  lemma ParsesBetweenTags(tail: string)
    requires |tail| >= 8 && tail[|tail| - 8..] == "</event>"
    ensures RawParsed("<event>" + tail) == ReadFields(tail, 8)
  {
    var text := "<event>" + tail;
    FindsEventBegin(tail);
    assert text[|text| - 8..] == tail[|tail| - 8..];
    FindsEventEnd(text);
    assert text[7..] == tail;
  }

  lemma {:induction false} EscapedFieldsAt(fields: seq<Field>, i: nat, k: nat)
    requires i <= k < |fields|
    ensures |EscapedFields(fields, i)| == |fields| - i && EscapedFields(fields, i)[k - i] == EscapedField(fields[k])
    decreases |fields| - i
  {
    if i < k {
      EscapedFieldsAt(fields, i + 1, k);
    } else if i + 1 < |fields| {
      EscapedFieldsAt(fields, i + 1, i + 1);
    }
  }

  lemma UnescapesFields(fields: seq<Field>)
    ensures UnescapedFields(EscapedFields(fields)) == fields
  {
    forall k | 0 <= k < |fields|
      ensures |EscapedFields(fields)| == |fields| && UnescapedFields(EscapedFields(fields))[k] == fields[k] {
      EscapedFieldsAt(fields, 0, k);
      UnescapeUndoesEscape(fields[k].value);
    }
  }

  /** A record comes back exactly when no name holds a `>` or a space, or starts with a slash. */
  lemma XmlRoundTrip(fields: seq<Field>)
    ensures Parsed(Formatted(fields)) == Some(fields) <==> GoodNames(fields, 0)
  {
    TailEnds(fields, 0);
    TrimsNothing(TailText(fields));
    ParsesBetweenTags(TailText(fields));
    ReadsTail(fields, 0);
    UnescapesFields(fields);
    var raw := RawParsed(Trimmed(Formatted(fields)));
    assert fields[0..] == fields;
    if raw.Some? && UnescapedFields(raw.value) == fields {
      assert forall k :: 0 <= k < |fields| ==> UnescapedFields(raw.value)[k] == fields[k];
      assert Names(raw.value) == Names(fields);
    }
  }

  // Records as other programs write them

  /** A field with any text but a tag before it, attributes in its opening tag, and its value as it
      stands. */
  datatype Item = Item(gap: string, name: string, attributes: string, value: string)

  ghost predicate IsItem(x: Item) {
    '<' !in x.gap && GoodName(x.name) && AreAttributes(x.attributes) && Closes(x.value, x.name)
  }

  function ItemText(x: Item, rest: string): string {
    x.gap + ("<" + (x.name + x.attributes + (">" + (x.value + (CloseTag(x.name) + rest)))))
  }

  function ItemsText(items: seq<Item>, rest: string): string {
    if items == [] then rest else ItemText(items[0], ItemsText(items[1..], rest))
  }

  function FieldsOf(items: seq<Item>): seq<Field> {
    if items == [] then [] else [Field(items[0].name, items[0].value)] + FieldsOf(items[1..])
  }

  lemma OpensTagBehind(gap: string, inside: string, after: nat)
    requires '<' !in gap && after <= |inside|
    ensures ReadField(gap + ("<" + inside), after) == if inside != "" && inside[0] == '/' then End else ReadInside(inside)
  {
    var t := gap + ("<" + inside);
    FindAfter(gap, "<" + inside, "<");
    assert t[|gap| + 1..] == inside;
  }

  lemma ReadsItem(x: Item, rest: string, after: nat)
    requires IsItem(x) && after <= |rest|
    ensures ReadField(ItemText(x, rest), after) == Read(Field(x.name, x.value), rest)
  {
    var inside := x.name + x.attributes + (">" + (x.value + (CloseTag(x.name) + rest)));
    OpensTagBehind(x.gap, inside, after);
    ReadsInside(x.name, x.attributes, x.value, rest);
    HeadOfTag(x.name, x.attributes, x.value + (CloseTag(x.name) + rest));
  }

  /** The items are read one after the other, up to a closing tag. */
  lemma {:induction false} ReadsItems(items: seq<Item>, gap: string, tail: string, after: nat)
    requires (forall i :: 0 <= i < |items| ==> IsItem(items[i])) && '<' !in gap && after <= |tail| + 2
    ensures |ItemsText(items, gap + ("</" + tail))| >= after
    ensures ReadFields(ItemsText(items, gap + ("</" + tail)), after) == Some(FieldsOf(items))
  {
    var end := gap + ("</" + tail);
    if items == [] {
      var t := ItemsText(items, end);
      if |t| > after {
        EndsAtClosingTag(gap, tail, after);
      }
    } else {
      ReadsItems(items[1..], gap, tail, after);
      var rest := ItemsText(items[1..], end);
      ReadsItem(items[0], rest, after);
    }
  }

  lemma EndsAtClosingTag(gap: string, tail: string, after: nat)
    requires '<' !in gap && after <= |tail| + 2
    ensures ReadField(gap + ("</" + tail), after) == End
  {
    var t := gap + ("</" + tail);
    FindAfter(gap, "</" + tail, "<");
    assert t[|gap| + 1] == ("</" + tail)[1];
  }

  lemma {:induction false} LastIsAtLeast(t: string, what: string, k: nat, at: nat)
    requires at <= k <= |t| && StartsWith(t[at..], what)
    ensures LastUpTo(t, what, k).Some? && at <= LastUpTo(t, what, k).value
    decreases k
  {
    if !StartsWith(t[k..], what) {
      LastIsAtLeast(t, what, k - 1, at);
    }
  }

  predicate EndsWith(t: string, end: string) {
    |end| <= |t| && t[|t| - |end|..] == end
  }

  lemma EndsWithBoth(front: string, end: string)
    ensures EndsWith(front + end, end)
  {
  }

  lemma EndsWithEnd(t: string, middle: string, end: string)
    requires EndsWith(t, middle) && EndsWith(middle, end)
    ensures EndsWith(t, end)
  {
    assert t[|t| - |end|..] == t[|t| - |middle|..][|middle| - |end|..];
  }

  lemma LastCharacter(t: string, end: string)
    requires EndsWith(t, end) && end != ""
    ensures t[|t| - 1] == end[|end| - 1]
  {
    assert t[|t| - |end|..][|end| - 1] == t[|t| - 1];
  }

  lemma ItemEndsWith(x: Item, rest: string)
    ensures EndsWith(ItemText(x, rest), rest)
  {
    var behind := CloseTag(x.name) + rest;
    var inside := x.name + x.attributes + (">" + (x.value + behind));
    EndsWithBoth(CloseTag(x.name), rest);
    EndsWithBoth(x.value, behind);
    EndsWithEnd(x.value + behind, behind, rest);
    TagsEnd(x.name + x.attributes, x.value + behind, rest);
    EndsWithBoth("<", inside);
    EndsWithEnd("<" + inside, inside, rest);
    EndsWithBoth(x.gap, "<" + inside);
    EndsWithEnd(ItemText(x, rest), "<" + inside, rest);
  }

  lemma {:induction false} ItemsEndWith(items: seq<Item>, rest: string)
    ensures EndsWith(ItemsText(items, rest), rest)
  {
    if items != [] {
      var tail := ItemsText(items[1..], rest);
      ItemsEndWith(items[1..], rest);
      ItemEndsWith(items[0], tail);
      EndsWithEnd(ItemText(items[0], tail), tail, rest);
    }
  }

  /** The fields of a text lie behind the first tag, and end no earlier than at a closing tag that it
      ends with. */
  lemma FindsBounds(opening: string, inner: string, tail: string) returns (end: nat)
    requires '>' !in opening && EndsWith(inner, "</" + tail)
    ensures var text := opening + (">" + inner);
      FieldBounds(text) == Some((|opening| + 1, end)) && |text| - end <= |tail| + 2
  {
    var text := opening + (">" + inner);
    FindAfter(opening, ">" + inner, ">");
    TagsEnd(opening, inner, "</" + tail);
    end := FindsClosing(text, tail);
    BoundsAre(text, |opening|, end);
  }

  lemma BoundsAre(text: string, begin: nat, end: nat)
    requires Find(text, ">") == Some(begin) && FindLast(text, "</") == Some(end) && begin < end
    ensures FieldBounds(text) == Some((begin + 1, end))
  {
  }

  lemma ReadsBehindTag(opening: string, inner: string, end: nat) returns (after: nat)
    requires FieldBounds(opening + (">" + inner)) == Some((|opening| + 1, end))
    ensures after == |opening| + 1 + |inner| - end
    ensures RawParsed(opening + (">" + inner)) == ReadFields(inner, after)
  {
    after := |opening| + 1 + |inner| - end;
    BehindTag(opening, inner);
  }

  lemma BehindTag(opening: string, inner: string)
    ensures (opening + (">" + inner))[|opening| + 1..] == inner
  {
  }

  lemma TagsEnd(opening: string, inner: string, end: string)
    requires EndsWith(inner, end)
    ensures EndsWith(opening + (">" + inner), end)
  {
    EndsWithBoth(">", inner);
    EndsWithEnd(">" + inner, inner, end);
    EndsWithBoth(opening, ">" + inner);
    EndsWithEnd(opening + (">" + inner), ">" + inner, end);
  }

  lemma FindsClosing(text: string, tail: string) returns (end: nat)
    requires EndsWith(text, "</" + tail)
    ensures FindLast(text, "</") == Some(end) && end >= |text| - |tail| - 2
  {
    var at := |text| - |tail| - 2;
    assert text[at..][..2] == "</";
    LastIsAtLeast(text, "</", |text|, at);
    end := FindLast(text, "</").value;
  }

  lemma TrimsAround(before: string, opening: string, inner: string, tail: string, behind: string)
    requires AllSpaces(before) && AllSpaces(behind) && EndsWith(inner, "</" + tail)
    requires opening != "" && !IsSpace(opening[0]) && (tail == "" || !IsSpace(tail[|tail| - 1]))
    ensures Trimmed(before + (opening + (">" + inner)) + behind) == opening + (">" + inner)
  {
    var text := opening + (">" + inner);
    TagsEnd(opening, inner, "</" + tail);
    LastCharacter(text, "</" + tail);
    assert ("</" + tail)[|tail| + 1] == if tail == "" then '/' else tail[|tail| - 1];
    TrimsSpaces(before, text, behind);
  }

  /** Attributes, spaces and other text between the fields, and anything behind the last closing tag are
      passed over, and the items are the fields. */
  lemma LooseRecordIsRead(before: string, opening: string, items: seq<Item>, gap: string, tail: string, behind: string)
    requires AllSpaces(before) && AllSpaces(behind)
    requires opening != "" && !IsSpace(opening[0]) && '>' !in opening && (tail == "" || !IsSpace(tail[|tail| - 1]))
    requires (forall i :: 0 <= i < |items| ==> IsItem(items[i])) && '<' !in gap
    ensures Parsed(before + (opening + (">" + ItemsText(items, gap + ("</" + tail)))) + behind)
         == Some(UnescapedFields(FieldsOf(items)))
  {
    var end := gap + ("</" + tail);
    var inner := ItemsText(items, end);
    ItemsEndWith(items, end);
    EndsWithBoth(gap, "</" + tail);
    EndsWithEnd(inner, end, "</" + tail);
    TrimsAround(before, opening, inner, tail, behind);
    var last := FindsBounds(opening, inner, tail);
    var after := ReadsBehindTag(opening, inner, last);
    ReadsItems(items, gap, tail, after);
  }

  /** A record has a closing tag somewhere behind the end of its first tag. */
  lemma NeedsTags(line: string) returns (k: nat)
    requires Parsed(line).Some?
    ensures k <= |Trimmed(line)| && StartsWith(Trimmed(line)[k..], "</") && '>' in Trimmed(line)[..k]
  {
    var text := Trimmed(line);
    var begin := Find(text, ">").value;
    k := FindLast(text, "</").value;
    assert IsFirst(text, ">", begin);
    HeadOfMatch(text[begin..], ">");
    assert text[..k][begin] == '>';
  }

  /** A field that is never closed makes a record unreadable, whatever stands before it. */
  lemma UnclosedFieldIsRefused(before: string, opening: string, items: seq<Item>, gap: string, name: string,
                               attributes: string, value: string, tail: string, behind: string)
    requires AllSpaces(before) && AllSpaces(behind)
    requires opening != "" && !IsSpace(opening[0]) && '>' !in opening && (tail == "" || !IsSpace(tail[|tail| - 1]))
    requires forall i :: 0 <= i < |items| ==> IsItem(items[i])
    requires '<' !in gap && GoodName(name) && AreAttributes(attributes)
    requires Find(value + ("</" + tail), CloseTag(name)).None?
    ensures Parsed(before + (opening + (">" + ItemsText(items, UnclosedText(gap, name, attributes, value, tail)))) + behind)
         == None
  {
    var end := UnclosedText(gap, name, attributes, value, tail);
    var inner := ItemsText(items, end);
    UnclosedEnds(gap, name, attributes, value, tail);
    ItemsEndWith(items, end);
    EndsWithEnd(inner, end, "</" + tail);
    TrimsAround(before, opening, inner, tail, behind);
    var last := FindsBounds(opening, inner, tail);
    var after := ReadsBehindTag(opening, inner, last);
    ReadsUpToUnclosed(items, gap, name, attributes, value + ("</" + tail), after);
  }

  function UnclosedText(gap: string, name: string, attributes: string, value: string, tail: string): string {
    gap + ("<" + (name + attributes + (">" + (value + ("</" + tail)))))
  }

  lemma UnclosedEnds(gap: string, name: string, attributes: string, value: string, tail: string)
    ensures EndsWith(UnclosedText(gap, name, attributes, value, tail), "</" + tail)
  {
    var end := "</" + tail;
    var inside := name + attributes + (">" + (value + end));
    EndsWithBoth(value, end);
    TagsEnd(name + attributes, value + end, end);
    EndsWithBoth("<", inside);
    EndsWithEnd("<" + inside, inside, end);
    EndsWithBoth(gap, "<" + inside);
    EndsWithEnd(gap + ("<" + inside), "<" + inside, end);
  }

  lemma {:induction false} ReadsUpToUnclosed(items: seq<Item>, gap: string, name: string, attributes: string,
                                             behind: string, after: nat)
    requires forall i :: 0 <= i < |items| ==> IsItem(items[i])
    requires '<' !in gap && GoodName(name) && AreAttributes(attributes) && after <= |behind|
    requires Find(behind, CloseTag(name)).None?
    ensures var t := ItemsText(items, gap + ("<" + (name + attributes + (">" + behind))));
      |t| > after && ReadFields(t, after) == None
  {
    var end := gap + ("<" + (name + attributes + (">" + behind)));
    if items == [] {
      UnclosedIsBroken(gap, name, attributes, behind, after);
    } else {
      ReadsUpToUnclosed(items[1..], gap, name, attributes, behind, after);
      ReadsItem(items[0], ItemsText(items[1..], end), after);
    }
  }

  lemma UnclosedIsBroken(gap: string, name: string, attributes: string, behind: string, after: nat)
    requires '<' !in gap && GoodName(name) && AreAttributes(attributes) && after <= |behind|
    requires Find(behind, CloseTag(name)).None?
    ensures ReadField(gap + ("<" + (name + attributes + (">" + behind))), after) == Broken
  {
    OpensTagBehind(gap, name + attributes + (">" + behind), after);
    HeadOfTag(name, attributes, behind);
    UnclosedInside(name, attributes, behind);
  }

  lemma UnclosedInside(name: string, attributes: string, behind: string)
    requires GoodName(name) && AreAttributes(attributes) && Find(behind, CloseTag(name)).None?
    ensures ReadInside(name + attributes + (">" + behind)) == Broken
  {
    var tag := name + attributes;
    FindAfter(tag, ">" + behind, ">");
    BehindTag(tag, behind);
    assert (tag + (">" + behind))[..|tag|] == tag;
    CutsAttributes(name, attributes);
  }

  lemma HeadOfTag(name: string, attributes: string, behind: string)
    requires GoodName(name) && AreAttributes(attributes)
    ensures (name + attributes + (">" + behind))[0] != '/'
  {
    var inside := name + attributes + (">" + behind);
    assert inside[0] == if name != "" then name[0] else if attributes != "" then attributes[0] else '>';
  }
}
