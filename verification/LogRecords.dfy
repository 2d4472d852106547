/** Log records and the trimming both record parsers begin with. */
module LogRecords {

  datatype Field = Field(name: string, value: string)

  predicate IsSpace(c: char) {
    c == ' ' || c == '\t' || c == '\n' || c == '\r' || c == 11 as char || c == 12 as char
  }

  /** The text without the spaces at its front. */
  function Skipped(text: string): (r: string)
    ensures |r| <= |text| && (r != "" ==> !IsSpace(r[0]))
  {
    if text != "" && IsSpace(text[0]) then Skipped(text[1..]) else text
  }

  /** The text without the spaces at its end. */
  function Chopped(text: string): string {
    if text != "" && IsSpace(text[|text| - 1]) then Chopped(text[..|text| - 1]) else text
  }

  function Trimmed(text: string): string {
    Chopped(Skipped(text))
  }

  method SkipSpaces(text: string, start: nat) returns (pos: nat)
    requires start <= |text|
    ensures start <= pos <= |text| && text[pos..] == Skipped(text[start..])
  {
    pos := start;
    while pos < |text| && IsSpace(text[pos])
      invariant start <= pos <= |text| && Skipped(text[pos..]) == Skipped(text[start..])
    {
      assert text[pos..][1..] == text[pos + 1..];
      pos := pos + 1;
    }
  }

  method Trim(text: string) returns (r: string)
    ensures r == Trimmed(text)
  {
    var begin := SkipSpaces(text, 0);
    assert text[0..] == text;
    var end := |text|;
    assert text[begin..end] == text[begin..];
    while end > begin && IsSpace(text[end - 1])
      invariant begin <= end <= |text| && Chopped(text[begin..end]) == Trimmed(text)
    {
      assert text[begin..end][..end - begin - 1] == text[begin..end - 1];
      end := end - 1;
    }
    r := text[begin..end];
  }

  lemma NothingToTrim(text: string)
    requires text != "" && !IsSpace(text[0]) && !IsSpace(text[|text| - 1])
    ensures Trimmed(text) == text
  {
  }

  // What the spaces are, and what trimming leaves

  /** The characters of isspace in the C locale: the space and the five controls from tab on. */
  lemma SpacesOfC(c: char)
    ensures IsSpace(c) <==> c == ' ' || 9 <= c as int <= 13
  {
  }

  predicate AllSpaces(s: string) {
    forall i :: 0 <= i < |s| ==> IsSpace(s[i])
  }

  /** Skipping drops exactly the spaces before a text that begins with none. */
  lemma {:induction false} SkipsSpaces(gap: string, rest: string)
    requires AllSpaces(gap) && (rest == "" || !IsSpace(rest[0]))
    ensures Skipped(gap + rest) == rest
  {
    if gap == "" {
      assert gap + rest == rest;
    } else {
      assert (gap + rest)[1..] == gap[1..] + rest;
      SkipsSpaces(gap[1..], rest);
    }
  }

  lemma {:induction false} ChopsSpaces(text: string, gap: string)
    requires AllSpaces(gap) && (text == "" || !IsSpace(text[|text| - 1]))
    ensures Chopped(text + gap) == text
  {
    if gap == "" {
      assert text + gap == text;
    } else {
      assert (text + gap)[..|text + gap| - 1] == text + gap[..|gap| - 1];
      ChopsSpaces(text, gap[..|gap| - 1]);
    }
  }

  /** Trimming takes the spaces off both ends and nothing else. */
  lemma TrimsSpaces(before: string, text: string, behind: string)
    requires AllSpaces(before) && AllSpaces(behind)
    requires text == "" || (!IsSpace(text[0]) && !IsSpace(text[|text| - 1]))
    ensures Trimmed(before + text + behind) == text
  {
    if text == "" {
      assert before + text + behind == (before + behind) + "";
      SkipsSpaces(before + behind, "");
    } else {
      assert before + text + behind == before + (text + behind);
      SkipsSpaces(before, text + behind);
      ChopsSpaces(text, behind);
    }
  }

  lemma {:induction false} SkippedSplits(t: string) returns (gap: string)
    ensures AllSpaces(gap) && t == gap + Skipped(t)
  {
    if t != "" && IsSpace(t[0]) {
      var rest := SkippedSplits(t[1..]);
      gap := [t[0]] + rest;
    } else {
      gap := "";
    }
  }

  lemma SkipsMore(gap: string, rest: string)
    requires AllSpaces(gap)
    ensures Skipped(gap + rest) == Skipped(rest)
  {
    var more := SkippedSplits(rest);
    assert gap + rest == (gap + more) + Skipped(rest);
    SkipsSpaces(gap + more, Skipped(rest));
  }

  lemma {:induction false} ChoppedIsPrefix(text: string) returns (k: nat)
    ensures k <= |text| && Chopped(text) == text[..k]
    ensures text != "" && !IsSpace(text[0]) ==> k > 0
  {
    if text != "" && IsSpace(text[|text| - 1]) {
      var front := text[..|text| - 1];
      k := ChoppedIsPrefix(front);
      assert front[..k] == text[..k];
    } else {
      k := |text|;
    }
  }
}
