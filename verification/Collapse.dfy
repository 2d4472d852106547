/** Collapsing repeated messages of one call site, by count or by time. */
module Collapse {

  const WORD: nat := 0x1_0000_0000_0000_0000

  /** An unsigned 64-bit number. */
  type Word = n: nat | n < WORD

  datatype Mode = COUNT | TIME

  datatype Settings = Settings(mode: Mode, limit: Word, intervalMs: Word)

  datatype State = State(lastKey: string, lastOutputTime: Word, repeatCount: Word)

  /** What becomes of one message: shown or not, and how many repeats it reports. */
  datatype Outcome = Outcome(shown: bool, reported: nat)

  function Succ(n: Word): Word {
    if n + 1 == WORD then 0 else n + 1
  }

  /** The wrapping difference of two times. */
  function Since(now: Word, before: Word): Word {
    if before <= now then now - before else now + WORD - before
  }

  function Off(c: Settings): bool {
    (c.mode == COUNT && c.limit == 0) || (c.mode == TIME && c.intervalMs == 0)
  }

  function Shows(c: Settings, s: State, key: string, now: Word): bool {
    || Off(c)
    || s.lastKey != key
    || (if c.mode == COUNT then Succ(s.repeatCount) >= c.limit else Since(now, s.lastOutputTime) >= c.intervalMs)
  }

  function OutcomeOf(c: Settings, s: State, key: string, now: Word): Outcome {
    if !Shows(c, s, key, now) then Outcome(false, 0)
    else if Off(c) || s.lastKey != key then Outcome(true, 0)
    else Outcome(true, if c.mode == COUNT then Succ(s.repeatCount) else s.repeatCount)
  }

  function Next(c: Settings, s: State, key: string, now: Word): State {
    if Off(c) then s
    else if s.lastKey != key then State(key, now, 0)
    else if !Shows(c, s, key, now) then s.(repeatCount := Succ(s.repeatCount))
    else if c.mode == COUNT then s.(repeatCount := 0)
    else s.(repeatCount := 0, lastOutputTime := now)
  }

  class CollapseContextCache {
    const settings: Settings
    var lastKey: string
    var lastOutputTime: Word
    var repeatCount: Word

    function Abstract(): State
      reads this
    {
      State(lastKey, lastOutputTime, repeatCount)
    }

    constructor (settings: Settings)
      ensures this.settings == settings && Abstract() == State("", 0, 0)
    {
      this.settings := settings;
      lastKey, lastOutputTime, repeatCount := "", 0, 0;
    }

    /** `key` is the message without what the ignore pattern removes; `now` is the clock. */
    method ApplyCollapse(key: string, now: Word) returns (r: Outcome)
      modifies this
      ensures r == OutcomeOf(settings, old(Abstract()), key, now)
      ensures Abstract() == Next(settings, old(Abstract()), key, now)
    {
      if settings.mode == COUNT && settings.limit == 0 {
        return Outcome(true, 0);
      }
      if settings.mode == TIME && settings.intervalMs == 0 {
        return Outcome(true, 0);
      }
      if lastKey != key {
        lastKey := key;
        lastOutputTime := now;
        repeatCount := 0;
        return Outcome(true, 0);
      }
      if settings.mode == COUNT {
        repeatCount := Succ(repeatCount);
        if repeatCount < settings.limit {
          return Outcome(false, 0);
        }
        r := Outcome(true, repeatCount);
        repeatCount := 0;
        return;
      }
      if Since(now, lastOutputTime) < settings.intervalMs {
        repeatCount := Succ(repeatCount);
        return Outcome(false, 0);
      }
      r := Outcome(true, repeatCount);
      repeatCount := 0;
      lastOutputTime := now;
    }
  }

  // Runs of one key

  /** The state after messages with one key at the given times. */
  function After(c: Settings, s: State, key: string, times: seq<Word>): State {
    if times == [] then s
    else Next(c, After(c, s, key, times[..|times| - 1]), key, times[|times| - 1])
  }

  /** What becomes of the last of them. */
  function Last(c: Settings, s: State, key: string, times: seq<Word>): Outcome
    requires times != []
  {
    OutcomeOf(c, After(c, s, key, times[..|times| - 1]), key, times[|times| - 1])
  }

  function ShownCount(c: Settings, s: State, key: string, times: seq<Word>): nat {
    if times == [] then 0
    else ShownCount(c, s, key, times[..|times| - 1]) + if Last(c, s, key, times).shown then 1 else 0
  }

  function ReportedSum(c: Settings, s: State, key: string, times: seq<Word>): nat {
    if times == [] then 0
    else ReportedSum(c, s, key, times[..|times| - 1]) + Last(c, s, key, times).reported
  }

  /** The site has shown this key last, so what comes with it is a repeat. */
  predicate Repeating(c: Settings, s: State, key: string) {
    !Off(c) && s.lastKey == key
  }

  /** With a limit of 0, or an interval of 0, every message is shown, none reports a repeat and nothing
      is remembered. */
  lemma {:induction false} OffShowsAll(c: Settings, s: State, key: string, times: seq<Word>)
    requires if c.mode == COUNT then c.limit == 0 else c.intervalMs == 0
    ensures After(c, s, key, times) == s
    ensures ShownCount(c, s, key, times) == |times| && ReportedSum(c, s, key, times) == 0
  {
    if times != [] {
      OffShowsAll(c, s, key, times[..|times| - 1]);
    }
  }

  lemma OffMeans(c: Settings)
    ensures Off(c) <==> if c.mode == COUNT then c.limit == 0 else c.intervalMs == 0
  {
  }

  /** A message with a new key is shown, reports nothing and starts a run of its own. */
  lemma NewKeyStartsRun(c: Settings, s: State, key: string, now: Word)
    requires !Off(c) && s.lastKey != key
    ensures OutcomeOf(c, s, key, now) == Outcome(true, 0) && Next(c, s, key, now) == State(key, now, 0)
  {
  }

  /** The first message of a call site is not shown exactly when its key is empty, which is the key a
      new site starts with, and one repeat is held back: a limit above 1, or a clock still inside the
      first interval. */
  lemma FirstMessageShown(c: Settings, key: string, now: Word)
    ensures OutcomeOf(c, State("", 0, 0), key, now).shown
            <==> Off(c) || key != "" || if c.mode == COUNT then c.limit == 1 else now >= c.intervalMs
  {
  }

  // By count

  /** The outcome of a repeat in COUNT mode: shown with a whole limit, or held back. */
  function Repeated(c: Settings, shown: bool): Outcome {
    Outcome(shown, if shown then c.limit else 0)
  }

  /** In COUNT mode a run is going on: fewer repeats than the limit are pending. */
  predicate Counting(c: Settings, s: State, key: string) {
    c.mode == COUNT && Repeating(c, s, key) && s.repeatCount < c.limit
  }

  lemma {:induction false} CountBalance(c: Settings, s: State, key: string, times: seq<Word>)
    requires Counting(c, s, key)
    ensures var after := After(c, s, key, times);
      && Counting(c, after, key)
      && ReportedSum(c, s, key, times) + after.repeatCount == s.repeatCount + |times|
      && (times != [] ==> Last(c, s, key, times) == Repeated(c, after.repeatCount == 0))
  {
    if times != [] {
      CountBalance(c, s, key, times[..|times| - 1]);
    }
  }

  lemma {:induction false} CountReportsLimits(c: Settings, s: State, key: string, times: seq<Word>)
    requires Counting(c, s, key)
    ensures ReportedSum(c, s, key, times) == Times(c.limit, ShownCount(c, s, key, times))
  {
    if times != [] {
      CountReportsLimits(c, s, key, times[..|times| - 1]);
      CountBalance(c, s, key, times);
    }
  }

  function Times(d: nat, n: nat): nat {
    if n == 0 then 0 else Times(d, n - 1) + d
  }

  lemma {:induction false} TimesIsProduct(d: nat, n: nat)
    ensures Times(d, n) == d * n
  {
    if n > 0 {
      TimesIsProduct(d, n - 1);
    }
  }

  lemma DivMod(n: nat, d: nat, q: nat, r: nat)
    requires d > 0 && r < d && n == d * q + r
    ensures n / d == q && n % d == r
  {
    var x := n / d - q;
    assert d * x == r - n % d;
    assert x >= 1 ==> d * x >= d;
    assert x <= -1 ==> d * x + d <= 0;
  }

  /** In COUNT mode, with r repeats pending and n more to come, (r + n) / L are shown and (r + n) % L
      stay pending; the last one is shown exactly when L divides r + n, and then reports L. */
  lemma CountRun(c: Settings, s: State, key: string, times: seq<Word>)
    requires Counting(c, s, key)
    ensures var repeats := s.repeatCount + |times|;
      && After(c, s, key, times).repeatCount == repeats % c.limit
      && ShownCount(c, s, key, times) == repeats / c.limit
      && (times != [] ==> Last(c, s, key, times) == Repeated(c, repeats % c.limit == 0))
  {
    CountBalance(c, s, key, times);
    CountReportsLimits(c, s, key, times);
    TimesIsProduct(c.limit, ShownCount(c, s, key, times));
    DivMod(s.repeatCount + |times|, c.limit, ShownCount(c, s, key, times), After(c, s, key, times).repeatCount);
  }

  /** When another key ends the run, exactly (r + n) % L of its repeats are never reported: the new key
      reports none and what follows knows nothing of the run. None is lost exactly when L divides r + n. */
  lemma CountRunEnds(c: Settings, s: State, key: string, times: seq<Word>, other: string, now: Word)
    requires Counting(c, s, key) && other != key
    ensures var repeats, end := s.repeatCount + |times|, After(c, s, key, times);
      && Next(c, end, other, now) == State(other, now, 0)
      && repeats - ReportedSum(c, s, key, times) - OutcomeOf(c, end, other, now).reported == repeats % c.limit
  {
    CountBalance(c, s, key, times);
    CountRun(c, s, key, times);
    NewKeyStartsRun(c, After(c, s, key, times), other, now);
  }

  // By time

  /** In TIME mode a run is going on, and the count of its repeats has room for `n` more. */
  predicate Timing(c: Settings, s: State, key: string, n: nat) {
    c.mode == TIME && Repeating(c, s, key) && s.repeatCount + n < WORD
  }

  /** In TIME mode, whatever the clock does, the repeats held back are those reported so far and those
      still pending, and none is pending exactly after one that is shown. */
  lemma {:induction false} TimeRunConserves(c: Settings, s: State, key: string, times: seq<Word>)
    requires Timing(c, s, key, |times|)
    ensures var after := After(c, s, key, times);
      && after.lastKey == key
      && ShownCount(c, s, key, times) + ReportedSum(c, s, key, times) + after.repeatCount
         == s.repeatCount + |times|
      && (times != [] ==> (after.repeatCount == 0 <==> Last(c, s, key, times).shown))
  {
    if times != [] {
      TimeRunConserves(c, s, key, times[..|times| - 1]);
    }
  }

  /** When another key ends the run, the repeats held back since the last one shown are never reported:
      none is lost exactly when the run ends with a message that is shown. */
  lemma TimeRunEnds(c: Settings, s: State, key: string, times: seq<Word>, other: string, now: Word)
    requires Timing(c, s, key, |times|) && other != key && times != []
    ensures var end := After(c, s, key, times);
      var held := s.repeatCount + |times| - ShownCount(c, s, key, times);
      && Next(c, end, other, now) == State(other, now, 0)
      && held - ReportedSum(c, s, key, times) - OutcomeOf(c, end, other, now).reported == end.repeatCount
      && (held == ReportedSum(c, s, key, times) <==> Last(c, s, key, times).shown)
  {
    TimeRunConserves(c, s, key, times);
    NewKeyStartsRun(c, After(c, s, key, times), other, now);
  }

  ghost predicate Nondecreasing(first: Word, times: seq<Word>) {
    && (forall i :: 0 <= i < |times| ==> first <= times[i])
    && (forall i, j :: 0 <= i < j < |times| ==> times[i] <= times[j])
  }

  /** The times of the messages shown in a run, the last one before it included. */
  function ShownTimes(c: Settings, s: State, key: string, times: seq<Word>): (r: seq<Word>)
    ensures r != []
  {
    if times == [] then [s.lastOutputTime]
    else ShownTimes(c, s, key, times[..|times| - 1])
         + if Last(c, s, key, times).shown then [times[|times| - 1]] else []
  }

  /** With a clock that does not go back, shown messages of a run are at least the interval apart, and
      a message is held back only within the interval of the last one shown. */
  lemma {:induction false} TimeRunSpaced(c: Settings, s: State, key: string, times: seq<Word>)
    requires c.mode == TIME && Repeating(c, s, key) && Nondecreasing(s.lastOutputTime, times)
    ensures var after, shown := After(c, s, key, times), ShownTimes(c, s, key, times);
      && after.lastKey == key
      && after.lastOutputTime == shown[|shown| - 1]
      && after.lastOutputTime <= (if times == [] then s.lastOutputTime else times[|times| - 1])
      && (forall i :: 0 < i < |shown| ==> shown[i] - shown[i - 1] >= c.intervalMs)
      && (times != [] && !Last(c, s, key, times).shown ==> times[|times| - 1] - shown[|shown| - 1] < c.intervalMs)
  {
    if times != [] {
      var front, now := times[..|times| - 1], times[|times| - 1];
      TimeRunSpaced(c, s, key, front);
      assert front != [] ==> front[|front| - 1] <= now;
    }
  }

  /** A clock set back shows the next repeat at once, unless it is set back by nearly the whole range. */
  lemma ClockSetBackShows(c: Settings, s: State, now: Word)
    requires c.mode == TIME && !Off(c) && now < s.lastOutputTime
    ensures OutcomeOf(c, s, s.lastKey, now).shown <==> s.lastOutputTime - now <= WORD - c.intervalMs
  {
  }
}
