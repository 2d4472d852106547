/** Selecting trace points by a wildcard pattern: the greedy matcher that remembers only the last
    star, against the usual meaning of `*` and `?`. */
module TracePoints {
  import opened IntPrinter
  import opened Wrappers

  /** `text` from `t` on matches `pattern` from `p` on. */
  predicate Glob(text: string, pattern: string, t: nat, p: nat)
    requires t <= |text| && p <= |pattern|
    decreases |text| - t, |pattern| - p
  {
    if p == |pattern| then t == |text|
    else if pattern[p] == '*' then Glob(text, pattern, t, p + 1) || (t < |text| && Glob(text, pattern, t + 1, p))
    else t < |text| && (pattern[p] == '?' || pattern[p] == text[t]) && Glob(text, pattern, t + 1, p + 1)
  }

  predicate OnlyStars(pattern: string, p: nat)
    requires p <= |pattern|
  {
    forall i :: p <= i < |pattern| ==> pattern[i] == '*'
  }

  /** The matcher's decision from one state of its loop on; `star` is -1 before the first star. */
  predicate Greedy(text: string, pattern: string, t: nat, p: nat, star: int, retry: nat)
    requires State(text, pattern, t, p, star, retry)
    decreases |text| - (if star < 0 then -1 else retry), |text| - t, |pattern| - p
  {
    if t == |text| then OnlyStars(pattern, p)
    else if p < |pattern| && (pattern[p] == '?' || pattern[p] == text[t]) then
      Greedy(text, pattern, t + 1, p + 1, star, retry)
    else if p < |pattern| && pattern[p] == '*' then Greedy(text, pattern, t, p + 1, p, t)
    else if star >= 0 then Greedy(text, pattern, retry + 1, star + 1, star, retry + 1)
    else false
  }

  predicate State(text: string, pattern: string, t: nat, p: nat, star: int, retry: nat) {
    t <= |text| && p <= |pattern| && -1 <= star < |pattern| && (star >= 0 ==> retry <= t && pattern[star] == '*')
  }

  predicate WildcardMatches(text: string, pattern: string) {
    Greedy(text, pattern, 0, 0, -1, 0)
  }

  method WildcardMatchInternal(text: string, pattern: string) returns (matched: bool)
    ensures matched == WildcardMatches(text, pattern)
    ensures matched ==> Glob(text, pattern, 0, 0)
    ensures '*' !in text ==> (matched <==> Glob(text, pattern, 0, 0))
  {
    MatchMeansGlob(text, pattern);
    if '*' !in text {
      MatchIffGlob(text, pattern);
    }
    var t, p, star, retry := 0, 0, -1, 0;
    while t < |text|
      invariant State(text, pattern, t, p, star, retry)
      invariant Greedy(text, pattern, t, p, star, retry) == WildcardMatches(text, pattern)
      decreases |text| - (if star < 0 then -1 else retry), |text| - t, |pattern| - p
    {
      if p < |pattern| && (pattern[p] == '?' || pattern[p] == text[t]) {
        t, p := t + 1, p + 1;
        continue;
      }
      if p < |pattern| && pattern[p] == '*' {
        star, p := p, p + 1;
        retry := t;
        continue;
      }
      if star >= 0 {
        p := star + 1;
        retry := retry + 1;
        t := retry;
        continue;
      }
      return false;
    }
    while p < |pattern| && pattern[p] == '*'
      invariant p <= |pattern| && OnlyStars(pattern, p) == WildcardMatches(text, pattern)
    {
      p := p + 1;
    }
    matched := p == |pattern|;
  }

  // Glob matching

  lemma {:induction false} StarsMatchEnd(text: string, pattern: string, p: nat)
    requires p <= |pattern|
    ensures Glob(text, pattern, |text|, p) <==> OnlyStars(pattern, p)
    decreases |pattern| - p
  {
    if p < |pattern| {
      StarsMatchEnd(text, pattern, p + 1);
    }
  }

  /** A star may start earlier. */
  lemma {:induction false} StarStartsEarlier(text: string, pattern: string, t: nat, later: nat, p: nat)
    requires t <= later <= |text| && p < |pattern| && pattern[p] == '*' && Glob(text, pattern, later, p)
    ensures Glob(text, pattern, t, p)
    decreases later - t
  {
    if t < later {
      StarStartsEarlier(text, pattern, t + 1, later, p);
    }
  }

  /** What a star leaves over starts somewhere. */
  lemma {:induction false} StarEndsSomewhere(text: string, pattern: string, t: nat, p: nat) returns (k: nat)
    requires t <= |text| && p < |pattern| && pattern[p] == '*' && Glob(text, pattern, t, p)
    ensures t <= k <= |text| && Glob(text, pattern, k, p + 1)
    decreases |text| - t
  {
    if Glob(text, pattern, t, p + 1) {
      k := t;
    } else {
      k := StarEndsSomewhere(text, pattern, t + 1, p);
    }
  }

  /** A stretch of pattern without stars takes one character each. */
  lemma {:induction false} SegmentTakesItsLength(text: string, pattern: string, t: nat, p: nat, end: nat)
    requires t <= |text| && p <= end <= |pattern| && '*' !in pattern[p..end] && Glob(text, pattern, t, p)
    ensures t + (end - p) <= |text| && Glob(text, pattern, t + (end - p), end)
    decreases end - p
  {
    if p < end {
      assert pattern[p] in pattern[p..end];
      assert pattern[p + 1..end] == pattern[p..end][1..];
      SegmentTakesItsLength(text, pattern, t + 1, p + 1, end);
    }
  }

  // What patterns mean, piece by piece

  /** The whole text matches the whole pattern. */
  predicate Matches(text: string, pattern: string) {
    if pattern == "" then text == ""
    else if pattern[0] == '*' then Matches(text, pattern[1..]) || (text != "" && Matches(text[1..], pattern))
    else text != "" && (pattern[0] == '?' || pattern[0] == text[0]) && Matches(text[1..], pattern[1..])
  }

  lemma {:induction false} GlobIsMatch(text: string, pattern: string, t: nat, p: nat)
    requires t <= |text| && p <= |pattern|
    ensures Glob(text, pattern, t, p) <==> Matches(text[t..], pattern[p..])
    decreases |text| - t, |pattern| - p
  {
    if p < |pattern| {
      GlobIsMatch(text, pattern, t, p + 1);
      if t < |text| {
        GlobIsMatch(text, pattern, t + 1, p);
        GlobIsMatch(text, pattern, t + 1, p + 1);
      }
    }
  }

  /** A star takes any text, a question mark any one character, every other character itself, and
      nothing takes nothing. */
  lemma OneCharacter(text: string, c: char)
    ensures Matches(text, "") <==> text == ""
    ensures Matches(text, [c]) <==> c == '*' || (|text| == 1 && (c == '?' || text[0] == c))
  {
    assert [c][1..] == "";
    if c == '*' {
      StarTakesAll(text);
    }
  }

  lemma {:induction false} StarTakesAll(text: string)
    ensures Matches(text, "*")
  {
    assert "*"[1..] == "";
    if text != "" {
      StarTakesAll(text[1..]);
    }
  }

  /** Two patterns in a row match the texts that can be cut into a part for each: the meaning of a
      pattern is that of its characters one after the other. */
  lemma MatchesInARow(text: string, a: string, b: string)
    ensures Matches(text, a + b) <==> exists k: nat :: k <= |text| && Matches(text[..k], a) && Matches(text[k..], b)
  {
    if Matches(text, a + b) {
      var k := CutOf(text, a, b);
    }
    if k: nat :| k <= |text| && Matches(text[..k], a) && Matches(text[k..], b) {
      CutJoins(text, a, b, k);
    }
  }

  lemma {:induction false} CutOf(text: string, a: string, b: string) returns (k: nat)
    requires Matches(text, a + b)
    ensures k <= |text| && Matches(text[..k], a) && Matches(text[k..], b)
    decreases |text|, |a|
  {
    k := 0;
    if a != "" {
      assert (a + b)[1..] == a[1..] + b;
      if a[0] == '*' && Matches(text, a[1..] + b) {
        k := CutOf(text, a[1..], b);
      } else {
        var rest := CutOf(text[1..], if a[0] == '*' then a else a[1..], b);
        k := rest + 1;
        assert text[..k][1..] == text[1..][..rest];
      }
    } else {
      assert a + b == b && text[0..] == text;
    }
  }

  lemma {:induction false} CutJoins(text: string, a: string, b: string, k: nat)
    requires k <= |text| && Matches(text[..k], a) && Matches(text[k..], b)
    ensures Matches(text, a + b)
    decreases k, |a|
  {
    if a != "" {
      assert (a + b)[1..] == a[1..] + b;
      if a[0] == '*' && Matches(text[..k], a[1..]) {
        CutJoins(text, a[1..], b, k);
      } else {
        assert text[..k][1..] == text[1..][..k - 1];
        CutJoins(text[1..], if a[0] == '*' then a else a[1..], b, k - 1);
      }
    } else {
      assert a + b == b && text[0..] == text;
    }
  }

  // The greedy matcher

  /** What the matcher still has to find: a match from here, or from a later start after the last star. */
  ghost predicate Pending(text: string, pattern: string, t: nat, p: nat, star: int, retry: nat)
    requires State(text, pattern, t, p, star, retry)
  {
    Glob(text, pattern, t, p) || (star >= 0 && MatchesLater(text, pattern, retry, star + 1))
  }

  ghost predicate MatchesLater(text: string, pattern: string, retry: nat, p: nat)
    requires p <= |pattern|
  {
    exists k :: retry < k <= |text| && Glob(text, pattern, k, p)
  }

  lemma {:induction false} GreedyIsSound(text: string, pattern: string, t: nat, p: nat, star: int, retry: nat)
    requires State(text, pattern, t, p, star, retry) && Greedy(text, pattern, t, p, star, retry)
    ensures Pending(text, pattern, t, p, star, retry)
    decreases |text| - (if star < 0 then -1 else retry), |text| - t, |pattern| - p
  {
    if t == |text| {
      StarsMatchEnd(text, pattern, p);
    } else if p < |pattern| && (pattern[p] == '?' || pattern[p] == text[t]) {
      GreedyIsSound(text, pattern, t + 1, p + 1, star, retry);
      if pattern[p] == '*' && Glob(text, pattern, t + 1, p + 1) {
        assert Glob(text, pattern, t + 1, p);
      }
    } else if p < |pattern| && pattern[p] == '*' {
      GreedyIsSound(text, pattern, t, p + 1, p, t);
      if !Glob(text, pattern, t, p + 1) {
        var k :| t < k <= |text| && Glob(text, pattern, k, p + 1);
        assert Glob(text, pattern, k, p);
        StarStartsEarlier(text, pattern, t, k, p);
      }
    } else {
      GreedyIsSound(text, pattern, retry + 1, star + 1, star, retry + 1);
    }
  }

  /** With no star in the text, forgetting all but the last star loses nothing: the stretch after it
      holds no star and has been matched so far. */
  lemma {:induction false} GreedyIsComplete(text: string, pattern: string, t: nat, p: nat, star: int, retry: nat)
    requires State(text, pattern, t, p, star, retry) && '*' !in text
    requires star >= 0 ==> star < p && t - retry == p - (star + 1) && '*' !in pattern[star + 1..p]
    requires Pending(text, pattern, t, p, star, retry)
    ensures Greedy(text, pattern, t, p, star, retry)
    decreases |text| - (if star < 0 then -1 else retry), |text| - t, |pattern| - p
  {
    if !Glob(text, pattern, t, p) {
      var k :| retry < k <= |text| && Glob(text, pattern, k, star + 1);
      SegmentTakesItsLength(text, pattern, k, star + 1, p);
      if p < |pattern| && pattern[p] == '*' {
        StarStartsEarlier(text, pattern, t, k + (p - (star + 1)), p);
        assert false;
      }
    }
    if t == |text| {
      StarsMatchEnd(text, pattern, p);
    } else if p < |pattern| && (pattern[p] == '?' || pattern[p] == text[t]) {
      assert text[t] in text;
      assert star >= 0 ==> pattern[star + 1..p + 1] == pattern[star + 1..p] + [pattern[p]];
      GreedyIsComplete(text, pattern, t + 1, p + 1, star, retry);
    } else if p < |pattern| && pattern[p] == '*' {
      var k := StarEndsSomewhere(text, pattern, t, p);
      GreedyIsComplete(text, pattern, t, p + 1, p, t);
    } else {
      var k :| retry < k <= |text| && Glob(text, pattern, k, star + 1);
      GreedyIsComplete(text, pattern, retry + 1, star + 1, star, retry + 1);
    }
  }

  /** The matcher never accepts what the pattern does not mean. */
  lemma MatchMeansGlob(text: string, pattern: string)
    ensures WildcardMatches(text, pattern) ==> Glob(text, pattern, 0, 0)
  {
    if WildcardMatches(text, pattern) {
      GreedyIsSound(text, pattern, 0, 0, -1, 0);
    }
  }

  lemma MatchIffGlob(text: string, pattern: string)
    requires '*' !in text
    ensures WildcardMatches(text, pattern) <==> Glob(text, pattern, 0, 0)
  {
    MatchMeansGlob(text, pattern);
    if Glob(text, pattern, 0, 0) {
      GreedyIsComplete(text, pattern, 0, 0, -1, 0);
    }
  }

  // Texts with a star, such as the key of a method named operator*

  /** The pattern that spells `text` up to its first star, then a star and `rest`. */
  function Spoiler(text: string, i: nat, rest: string): string
    requires i < |text|
  {
    text[..i] + "*" + rest
  }

  lemma {:induction false} SpoilerRuns(text: string, i: nat, rest: string, t: nat)
    requires t <= i < |text| && text[i] == '*' && '*' !in text[..i]
    ensures Greedy(text, Spoiler(text, i, rest), t, t, -1, 0)
         == Greedy(text, Spoiler(text, i, rest), i + 1, i + 1, -1, 0)
    ensures Glob(text, Spoiler(text, i, rest), t, t) <==> Glob(text, Spoiler(text, i, rest), i, i)
    decreases i - t
  {
    if t < i {
      assert text[t] in text[..i];
      SpoilerRuns(text, i, rest, t + 1);
    }
  }

  function FirstStar(text: string): (i: nat)
    requires '*' in text
    ensures i < |text| && text[i] == '*' && '*' !in text[..i]
  {
    if text[0] == '*' then 0
    else
      assert text == [text[0]] + text[1..];
      var i := FirstStar(text[1..]) + 1;
      assert text[..i] == [text[0]] + text[1..][..i - 1];
      i
  }

  /** What `text` spells up to its first star, the star included, is a pattern for `text`, but not for
      the matcher. With the star at the end a character has to be asked for behind it. */
  lemma SpoilerIsWrong(text: string, pattern: string)
    requires '*' in text
    requires pattern == Spoiler(text, FirstStar(text), if FirstStar(text) + 1 < |text| then "" else "?")
    ensures Glob(text, pattern, 0, 0) && !WildcardMatches(text, pattern)
  {
    var i := FirstStar(text);
    SpoilerRuns(text, i, if i + 1 < |text| then "" else "?", 0);
    StarsMatchEnd(text, pattern, |pattern|);
    if i + 1 < |text| {
      StarStartsEarlier(text, pattern, i, |text|, i);
    } else {
      assert Glob(text, pattern, i, i + 1);
    }
  }

  /** The matcher agrees with the meaning of patterns for exactly the texts without a star. */
  lemma AgreesIffNoStarInText(text: string)
    ensures (forall pattern :: WildcardMatches(text, pattern) <==> Glob(text, pattern, 0, 0)) <==> '*' !in text
  {
    if '*' !in text {
      forall pattern ensures WildcardMatches(text, pattern) <==> Glob(text, pattern, 0, 0) {
        MatchIffGlob(text, pattern);
      }
    } else {
      SpoilerIsWrong(text, Spoiler(text, FirstStar(text), if FirstStar(text) + 1 < |text| then "" else "?"));
    }
  }

  // Trace points

  datatype TracePoint = TracePoint(moduleName: Option<string>, methodName: Option<string>, line: int)

  function Lower(c: char): char {
    if 'A' <= c <= 'Z' then c - 'A' + 'a' else c
  }

  function ToLower(s: string): (r: string)
    ensures |r| == |s| && forall i :: 0 <= i < |s| ==> r[i] == Lower(s[i])
  {
    seq(|s|, i requires 0 <= i < |s| => Lower(s[i]))
  }

  predicate IsLetter(c: char) {
    'a' <= c <= 'z' || 'A' <= c <= 'Z'
  }

  /** Texts that differ in the case of letters at most. */
  predicate SameButCase(s: string, t: string) {
    |s| == |t| && forall i :: 0 <= i < |s| ==> SameLetter(s[i], t[i])
  }

  predicate SameLetter(c: char, d: char) {
    c == d || (IsLetter(c) && IsLetter(d) && (c as int == d as int + 32 || d as int == c as int + 32))
  }

  lemma LowerMeans(s: string, t: string)
    ensures ToLower(s) == ToLower(t) <==> SameButCase(s, t)
  {
    if ToLower(s) == ToLower(t) {
      forall i | 0 <= i < |s| ensures SameLetter(s[i], t[i]) {
        assert ToLower(s)[i] == ToLower(t)[i];
      }
    }
  }

  function Key(point: TracePoint): string {
    (if point.moduleName.Some? then point.moduleName.value else "") + ":"
    + (if point.methodName.Some? then point.methodName.value else "") + ":" + SignedDecimal(point.line)
  }

  /** What a pattern means: case plays no part, and an empty pattern stands for every point. */
  predicate Means(point: TracePoint, pattern: string) {
    pattern == "" || Glob(ToLower(Key(point)), ToLower(pattern), 0, 0)
  }

  predicate Selects(point: TracePoint, pattern: string) {
    pattern == "" || WildcardMatches(ToLower(Key(point)), ToLower(pattern))
  }

  method TracePointMatch(point: TracePoint, pattern: string) returns (selected: bool)
    ensures selected == Selects(point, pattern)
    ensures selected ==> Means(point, pattern)
    ensures '*' !in Key(point) ==> (selected <==> Means(point, pattern))
  {
    if pattern == "" {
      return true;
    }
    LowerKeepsStars(Key(point));
    selected := WildcardMatchInternal(ToLower(Key(point)), ToLower(pattern));
  }

  lemma LowerKeepsStars(s: string)
    ensures '*' in ToLower(s) <==> '*' in s
  {
    if '*' in s {
      assert ToLower(s)[FirstStar(s)] == '*';
    }
    if '*' in ToLower(s) {
      assert s[FirstStar(ToLower(s))] == '*';
    }
  }

  /** A point is selected by exactly the patterns that mean it, if and only if its key has no star. */
  lemma SelectsIffNoStarInKey(point: TracePoint)
    ensures (forall pattern :: Selects(point, pattern) <==> Means(point, pattern)) <==> '*' !in Key(point)
  {
    var key := ToLower(Key(point));
    LowerKeepsStars(Key(point));
    if '*' !in key {
      forall pattern ensures Selects(point, pattern) <==> Means(point, pattern) {
        MatchIffGlob(key, ToLower(pattern));
      }
    } else {
      var pattern := KeySpoiler(point);
    }
  }

  /** A pattern that means a point whose key has a star, and misses it. */
  lemma KeySpoiler(point: TracePoint) returns (pattern: string)
    requires '*' in ToLower(Key(point))
    ensures Means(point, pattern) && !Selects(point, pattern)
  {
    var key := ToLower(Key(point));
    pattern := Spoiler(key, FirstStar(key), if FirstStar(key) + 1 < |key| then "" else "?");
    assert ToLower(pattern) == pattern;
    SpoilerIsWrong(key, pattern);
  }

  /** A method whose name ends in the first star of the key, such as `operator*`, is missed by the
      pattern that spells its module and name: the pattern's star is taken for the one in the name. */
  lemma OperatorStarIsMissed(moduleName: string, name: string, line: int)
    requires '*' !in moduleName && '*' !in name
    ensures var point := TracePoint(Some(moduleName), Some(name + "*"), line);
      var pattern := moduleName + ":" + name + "*";
      Means(point, pattern) && !Selects(point, pattern)
  {
    var before, behind := moduleName + ":" + name, ":" + SignedDecimal(line);
    assert Key(TracePoint(Some(moduleName), Some(name + "*"), line)) == before + "*" + behind;
    FrontWithStarIsMissed(before, behind);
  }

  lemma FrontWithStarIsMissed(before: string, behind: string)
    requires '*' !in before && behind != ""
    ensures Glob(ToLower(before + "*" + behind), ToLower(before + "*"), 0, 0)
    ensures !WildcardMatches(ToLower(before + "*" + behind), ToLower(before + "*"))
  {
    var key := ToLower(before + "*" + behind);
    LowerKeepsStars(before);
    assert key == ToLower(before) + "*" + ToLower(behind);
    StarAfter(key, ToLower(before), ToLower(behind));
    assert ToLower(before + "*") == Spoiler(key, |before|, "");
    SpoilerIsWrong(key, ToLower(before + "*"));
  }

  /** Two patterns that differ in case select the same points. */
  lemma CasePlaysNoPart(point: TracePoint, a: string, b: string)
    requires SameButCase(a, b)
    ensures Selects(point, a) <==> Selects(point, b)
  {
    LowerMeans(a, b);
  }

  /** A pattern without wildcards selects the points whose key it is, but for case. */
  lemma KeySelects(point: TracePoint, pattern: string)
    requires pattern != "" && NoWildcards(pattern) && '*' !in Key(point)
    ensures Selects(point, pattern) <==> SameButCase(Key(point), pattern)
  {
    var key, low := ToLower(Key(point)), ToLower(pattern);
    LowerKeepsStars(Key(point));
    LowerKeepsStars(pattern);
    forall i | 0 <= i < |low| ensures low[i] != '*' && low[i] != '?' {
      assert pattern[i] in pattern;
    }
    MatchIffGlob(key, low);
    PlainMatches(key, low, 0);
    assert key[0..] == key && low[0..] == low;
    LowerMeans(Key(point), pattern);
  }

  lemma {:induction false} PlainMatches(text: string, pattern: string, i: nat)
    requires i <= |text| && i <= |pattern|
    requires forall j :: 0 <= j < |pattern| ==> pattern[j] != '*' && pattern[j] != '?'
    ensures Glob(text, pattern, i, i) <==> text[i..] == pattern[i..]
    decreases |text| - i
  {
    if i < |text| && i < |pattern| {
      PlainMatches(text, pattern, i + 1);
      assert text[i..] == [text[i]] + text[i + 1..] && pattern[i..] == [pattern[i]] + pattern[i + 1..];
    }
  }

  predicate NoWildcards(s: string) {
    '*' !in s && '?' !in s
  }

  lemma NumberHasNoWildcards(n: int)
    ensures NoWildcards(SignedDecimal(n))
  {
    DecimalReadsBack(if n < 0 then -n else n);
  }

  /** The points of a module, of a method in it, and of one line are selected by those parts alone. */
  lemma PartsSelect(moduleName: string, methodName: string, line: int)
    requires NoWildcards(moduleName) && NoWildcards(methodName)
    ensures var point := TracePoint(Some(moduleName), Some(methodName), line);
      && Selects(point, moduleName + ":*")
      && Selects(point, moduleName + ":" + methodName + ":*")
      && Selects(point, moduleName + ":" + methodName + ":" + SignedDecimal(line))
  {
    var point := TracePoint(Some(moduleName), Some(methodName), line);
    NumberHasNoWildcards(line);
    assert Key(point) == moduleName + ":" + methodName + ":" + SignedDecimal(line);
    KeySelects(point, Key(point));
    assert Key(point) == moduleName + ":" + (methodName + ":" + SignedDecimal(line));
    FrontSelects(point, moduleName + ":", methodName + ":" + SignedDecimal(line));
    FrontSelects(point, moduleName + ":" + methodName + ":", SignedDecimal(line));
    assert moduleName + ":" + "*" == moduleName + ":*";
    assert moduleName + ":" + methodName + ":" + "*" == moduleName + ":" + methodName + ":*";
  }

  /** An unnamed module or method is one with an empty name, and the empty pattern selects every point. */
  lemma EmptyNames(part: Option<string>, line: int, pattern: string)
    ensures Selects(TracePoint(None, part, line), pattern) <==> Selects(TracePoint(Some(""), part, line), pattern)
    ensures Selects(TracePoint(part, None, line), pattern) <==> Selects(TracePoint(part, Some(""), line), pattern)
    ensures Selects(TracePoint(part, None, line), "")
  {
  }

  /** What a key begins with, and a star behind it. */
  lemma FrontSelects(point: TracePoint, front: string, rest: string)
    requires Key(point) == front + rest && NoWildcards(Key(point)) && front != ""
    ensures Selects(point, front + "*")
  {
    var low := ToLower(front);
    assert ToLower(Key(point)) == low + ToLower(rest) && ToLower(front + "*") == low + "*";
    LowerKeepsStars(Key(point));
    forall i | 0 <= i < |low| ensures low[i] != '*' && low[i] != '?' {
      assert front[i] == Key(point)[i] && Key(point)[i] in Key(point);
    }
    FrontMatches(low, ToLower(rest));
    MatchIffGlob(low + ToLower(rest), low + "*");
  }

  lemma FrontMatches(front: string, rest: string)
    requires forall i :: 0 <= i < |front| ==> front[i] != '*' && front[i] != '?'
    ensures Glob(front + rest, front + "*", 0, 0)
  {
    var text, pattern := front + rest, front + "*";
    PlainMatches(front, front, 0);
    GlobIsMatch(front, front, 0, 0);
    assert front[0..] == front;
    StarTakesAll(rest);
    assert text[..|front|] == front && text[|front|..] == rest;
    CutJoins(text, front, "*", |front|);
    GlobIsMatch(text, pattern, 0, 0);
    assert text[0..] == text && pattern[0..] == pattern;
  }

  lemma {:induction false} StarAfter(text: string, before: string, behind: string)
    requires text == before + "*" + behind && '*' !in before
    ensures '*' in text && FirstStar(text) == |before|
  {
    if before == "" {
      assert text[0] == '*';
    } else {
      assert text[1..] == before[1..] + "*" + behind && text[0] == before[0];
      StarAfter(text[1..], before[1..], behind);
    }
  }
}
