/** The sorted table of per-subsystem levels and its binary-search lookup. */
module SubsystemLevels {
  import opened Wrappers

  datatype Entry = Entry(subsystem: nat, level: nat)

  type Levels = seq<Entry>

  ghost predicate Sorted(levels: Levels) {
    forall i, j :: 0 <= i < j < |levels| ==> levels[i].subsystem < levels[j].subsystem
  }

  /** std::lower_bound on the range [lo, hi): halves it until one place is left. */
  function LowerBound(levels: Levels, key: nat, lo: nat, hi: nat): (r: nat)
    requires lo <= hi <= |levels| && Sorted(levels)
    ensures lo <= r <= hi
    ensures forall i :: lo <= i < r ==> levels[i].subsystem < key
    ensures forall i :: r <= i < hi ==> key <= levels[i].subsystem
    decreases hi - lo
  {
    if lo == hi then lo
    else
      var mid := lo + (hi - lo) / 2;
      if levels[mid].subsystem < key then LowerBound(levels, key, mid + 1, hi)
      else LowerBound(levels, key, lo, mid)
  }

  function Lookup(levels: Levels, key: nat): (r: Option<nat>)
    requires Sorted(levels)
  {
    var at := LowerBound(levels, key, 0, |levels|);
    if at < |levels| && levels[at].subsystem == key then Some(levels[at].level) else None
  }

  /** Binary search answers exactly what the table's entries say. */
  lemma LookupIsMembership(levels: Levels, key: nat)
    requires Sorted(levels)
    ensures forall level: nat :: Lookup(levels, key) == Some(level) <==> Entry(key, level) in levels
    ensures Lookup(levels, key) == None <==> forall e <- levels :: e.subsystem != key
  {
    var at := LowerBound(levels, key, 0, |levels|);
    forall e | e in levels && e.subsystem == key
      ensures at < |levels| && levels[at] == e
    {
      var i :| 0 <= i < |levels| && levels[i] == e;
      assert key <= levels[at].subsystem;
    }
    if at < |levels| && levels[at].subsystem == key {
      assert levels[at] == Entry(key, levels[at].level);
    }
  }

  /** Logger::SubsystemLevels and the calls that change it. `publish` tells whether the call goes on
      to publish a snapshot. */
  class LevelTable {
    var levels: Levels

    ghost predicate Valid()
      reads this
    {
      Sorted(levels) && forall e <- levels :: e.subsystem != 0
    }

    constructor ()
      ensures Valid() && levels == []
    {
      levels := [];
    }

    /** `shutdownCalled` is the logger's flag. */
    method SetSubsystemLevel(subsystem: nat, level: nat, shutdownCalled: bool) returns (publish: bool)
      requires Valid()
      modifies this
      ensures Valid()
      ensures publish <==> !shutdownCalled && subsystem != 0
      ensures !publish ==> levels == old(levels)
      ensures publish ==> levels == WithLevel(old(levels), subsystem, level)
    {
      if shutdownCalled || subsystem == 0 {
        return false;
      }
      WithLevelMeans(levels, subsystem, level);
      var at := LowerBound(levels, subsystem, 0, |levels|);
      if at < |levels| && levels[at].subsystem == subsystem {
        levels := levels[at := Entry(subsystem, level)];
      } else {
        levels := levels[..at] + [Entry(subsystem, level)] + levels[at..];
      }
      publish := true;
    }

    method RemoveSubsystemLevel(subsystem: nat) returns (publish: bool)
      requires Valid()
      modifies this
      ensures Valid()
      ensures publish <==> Lookup(old(levels), subsystem) != None
      ensures levels == Without(old(levels), subsystem)
    {
      LookupIsMembership(levels, subsystem);
      WithoutMeans(levels, subsystem);
      if subsystem == 0 {
        return false;
      }
      var at := LowerBound(levels, subsystem, 0, |levels|);
      if at == |levels| || levels[at].subsystem != subsystem {
        return false;
      }
      levels := levels[..at] + levels[at + 1..];
      publish := true;
    }

    method ClearSubsystemLevels() returns (publish: bool)
      modifies this
      ensures Valid() && levels == [] && publish
    {
      levels := [];
      publish := true;
    }
  }

  /** The table after SetSubsystemLevel. */
  function WithLevel(levels: Levels, subsystem: nat, level: nat): Levels
    requires Sorted(levels)
  {
    var at := LowerBound(levels, subsystem, 0, |levels|);
    if at < |levels| && levels[at].subsystem == subsystem then levels[at := Entry(subsystem, level)]
    else levels[..at] + [Entry(subsystem, level)] + levels[at..]
  }

  /** The table after RemoveSubsystemLevel. */
  function Without(levels: Levels, subsystem: nat): Levels
    requires Sorted(levels)
  {
    var at := LowerBound(levels, subsystem, 0, |levels|);
    if at < |levels| && levels[at].subsystem == subsystem then levels[..at] + levels[at + 1..] else levels
  }

  lemma SortedJoin(before: Levels, rest: Levels)
    requires Sorted(before) && Sorted(rest)
    requires forall i, j :: 0 <= i < |before| && 0 <= j < |rest| ==> before[i].subsystem < rest[j].subsystem
    ensures Sorted(before + rest)
  {
    forall i, j | 0 <= i < j < |before| + |rest|
      ensures (before + rest)[i].subsystem < (before + rest)[j].subsystem
    {
      if i < |before| <= j {
        assert before[i].subsystem < rest[j - |before|].subsystem;
      } else if |before| <= i {
        assert rest[i - |before|].subsystem < rest[j - |before|].subsystem;
      }
    }
  }

  /** The entries of a sorted table beyond a subsystem's place. */
  function Beyond(levels: Levels, subsystem: nat): (rest: Levels)
    requires Sorted(levels)
    ensures Sorted(rest) && forall i :: 0 <= i < |rest| ==> subsystem < rest[i].subsystem
  {
    var at := LowerBound(levels, subsystem, 0, |levels|);
    if at < |levels| && levels[at].subsystem == subsystem then levels[at + 1..] else levels[at..]
  }

  lemma OthersAround(levels: Levels, subsystem: nat, e: Entry)
    requires Sorted(levels) && e.subsystem != subsystem
    ensures e in levels <==> e in levels[..LowerBound(levels, subsystem, 0, |levels|)] + Beyond(levels, subsystem)
  {
    var at := LowerBound(levels, subsystem, 0, |levels|);
    assert levels == levels[..at] + levels[at..];
    if at < |levels| && levels[at].subsystem == subsystem {
      assert levels[at..] == [levels[at]] + levels[at + 1..];
    }
  }

  /** Setting keeps the table strictly sorted and changes that subsystem's entry alone. */
  lemma WithLevelMeans(levels: Levels, subsystem: nat, level: nat)
    requires Sorted(levels)
    ensures Sorted(WithLevel(levels, subsystem, level))
    ensures forall e :: e in WithLevel(levels, subsystem, level) <==>
      e == Entry(subsystem, level) || (e in levels && e.subsystem != subsystem)
  {
    var before := levels[..LowerBound(levels, subsystem, 0, |levels|)];
    var rest := Beyond(levels, subsystem);
    var after := WithLevel(levels, subsystem, level);
    assert after == before + [Entry(subsystem, level)] + rest;
    SortedJoin(before, [Entry(subsystem, level)]);
    SortedJoin(before + [Entry(subsystem, level)], rest);
    forall e: Entry
      ensures e in after <==> e == Entry(subsystem, level) || (e in levels && e.subsystem != subsystem)
    {
      if e.subsystem != subsystem {
        OthersAround(levels, subsystem, e);
      }
    }
  }

  /** Removing keeps the table strictly sorted and drops that subsystem's entry alone. */
  lemma WithoutMeans(levels: Levels, subsystem: nat)
    requires Sorted(levels)
    ensures Sorted(Without(levels, subsystem))
    ensures forall e :: e in Without(levels, subsystem) <==> e in levels && e.subsystem != subsystem
  {
    var before := levels[..LowerBound(levels, subsystem, 0, |levels|)];
    var rest := Beyond(levels, subsystem);
    var after := Without(levels, subsystem);
    assert after == before + rest;
    SortedJoin(before, rest);
    forall e: Entry
      ensures e in after <==> e in levels && e.subsystem != subsystem
    {
      if e.subsystem != subsystem {
        OthersAround(levels, subsystem, e);
      }
    }
  }

  /** Every later lookup answers what the last change of that subsystem says. */
  lemma LookupAfterSet(levels: Levels, subsystem: nat, level: nat, key: nat)
    requires Sorted(levels)
    ensures Sorted(WithLevel(levels, subsystem, level))
    ensures Lookup(WithLevel(levels, subsystem, level), key)
         == if key == subsystem then Some(level) else Lookup(levels, key)
  {
    WithLevelMeans(levels, subsystem, level);
    var after := WithLevel(levels, subsystem, level);
    LookupIsMembership(levels, key);
    LookupIsMembership(after, key);
    if key == subsystem {
      assert Entry(key, level) in after;
    } else if Lookup(levels, key).Some? {
      assert Entry(key, Lookup(levels, key).value) in after;
    }
  }

  lemma LookupAfterRemove(levels: Levels, subsystem: nat, key: nat)
    requires Sorted(levels)
    ensures Sorted(Without(levels, subsystem))
    ensures Lookup(Without(levels, subsystem), key) == if key == subsystem then None else Lookup(levels, key)
  {
    WithoutMeans(levels, subsystem);
    var after := Without(levels, subsystem);
    LookupIsMembership(levels, key);
    LookupIsMembership(after, key);
    if key != subsystem && Lookup(levels, key).Some? {
      assert Entry(key, Lookup(levels, key).value) in after;
    }
  }
}
