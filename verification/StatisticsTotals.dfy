/** What the statistics collector adds up: per call site, at most four channels in slots and the
    rest in an overflow counter, and the snapshots taken from them. Counters and sites are owned by
    the collector alone, so they are values here. */
module StatisticsTotals {
  import opened Wrappers

  const CHANNEL_SLOT_COUNT: nat := 4

  datatype Counter = Counter(records: nat, bytes: nat, maximum: nat)

  const ZERO := Counter(0, 0, 0)

  function Max(a: nat, b: nat): nat { if a < b then b else a }

  function Bump(c: Counter, bytes: nat): Counter {
    Counter(c.records + 1, c.bytes + bytes, Max(c.maximum, bytes))
  }

  function Add(a: Counter, b: Counter): Counter {
    Counter(a.records + b.records, a.bytes + b.bytes, Max(a.maximum, b.maximum))
  }

  /** The three figures of a counter, and how two of one kind are put together. */
  datatype Figure = Records | Bytes | Maximum

  function Of(f: Figure, c: Counter): nat {
    match f case Records => c.records case Bytes => c.bytes case Maximum => c.maximum
  }

  function Join(f: Figure, a: nat, b: nat): nat {
    if f == Maximum then Max(a, b) else a + b
  }

  /** The reference: a figure of the messages themselves. */
  function FigureOfLog(f: Figure, log: seq<nat>): nat {
    if log == [] then 0
    else Join(f, FigureOfLog(f, log[..|log| - 1]), FigureOfMessage(f, log[|log| - 1]))
  }

  function FigureOfMessage(f: Figure, bytes: nat): nat {
    if f == Records then 1 else bytes
  }

  datatype ChannelStats = ChannelStats(key: nat, name: string, counter: Counter)

  datatype Site = Site(key: nat, file: string, func: string, line: int, format: string,
                       slots: seq<Option<ChannelStats>>, overflow: Counter)

  function OfSlot(f: Figure, slot: Option<ChannelStats>): nat {
    if slot.Some? then Of(f, slot.value.counter) else 0
  }

  function OfSlots(f: Figure, slots: seq<Option<ChannelStats>>, from: nat := 0): nat
    decreases |slots| - from
  {
    if from >= |slots| then 0 else Join(f, OfSlot(f, slots[from]), OfSlots(f, slots, from + 1))
  }

  function OfSite(f: Figure, site: Site): nat {
    Join(f, OfSlots(f, site.slots), Of(f, site.overflow))
  }

  function OfSites(f: Figure, sites: seq<Site>, from: nat := 0): nat
    decreases |sites| - from
  {
    if from >= |sites| then 0 else Join(f, OfSite(f, sites[from]), OfSites(f, sites, from + 1))
  }

  /** Counters without records hold nothing else. */
  predicate Consistent(c: Counter) {
    c.records == 0 ==> c.bytes == 0 && c.maximum == 0
  }

  /** Channels fill the slots from the front, each channel once. */
  ghost predicate SlotsInv(slots: seq<Option<ChannelStats>>) {
    && |slots| == 4
    && (forall i, j :: 0 <= i < j < |slots| && slots[j].Some? ==>
          slots[i].Some? && slots[i].value.key != slots[j].value.key)
    && (forall i :: 0 <= i < |slots| && slots[i].Some? ==> Consistent(slots[i].value.counter))
  }

  ghost predicate SiteInv(site: Site) {
    SlotsInv(site.slots) && Consistent(site.overflow)
  }

  /** Equal figures, equal totals. */
  lemma {:induction false} SlotsSame(f: Figure, a: seq<Option<ChannelStats>>, b: seq<Option<ChannelStats>>, from: nat)
    requires |a| == |b| && forall i :: from <= i < |a| ==> OfSlot(f, a[i]) == OfSlot(f, b[i])
    ensures OfSlots(f, a, from) == OfSlots(f, b, from)
    decreases |a| - from
  {
    if from < |a| {
      SlotsSame(f, a, b, from + 1);
    }
  }

  lemma {:induction false} SlotsBump(f: Figure, slots: seq<Option<ChannelStats>>, from: nat, i: nat, c: ChannelStats,
                                     bytes: nat)
    requires from <= i < |slots| && OfSlot(f, Some(c)) == Join(f, OfSlot(f, slots[i]), FigureOfMessage(f, bytes))
    ensures OfSlots(f, slots[i := Some(c)], from) == Join(f, OfSlots(f, slots, from), FigureOfMessage(f, bytes))
    decreases i - from
  {
    if from == i {
      SlotsSame(f, slots[i := Some(c)], slots, from + 1);
    } else {
      SlotsBump(f, slots, from + 1, i, c, bytes);
    }
  }

  lemma {:induction false} NothingInSlots(f: Figure, slots: seq<Option<ChannelStats>>, from: nat)
    requires forall i :: from <= i < |slots| ==> OfSlot(f, slots[i]) == 0
    ensures OfSlots(f, slots, from) == 0
    decreases |slots| - from
  {
    if from < |slots| {
      NothingInSlots(f, slots, from + 1);
    }
  }

  /** Stopping at the first empty slot loses nothing. */
  lemma StopAtFirstEmpty(f: Figure, slots: seq<Option<ChannelStats>>, n: nat)
    requires SlotsInv(slots) && n < |slots| && slots[n].None?
    ensures OfSlots(f, slots, n) == 0
  {
    NothingInSlots(f, slots, n);
  }

  lemma {:induction false} SitesSame(f: Figure, a: seq<Site>, b: seq<Site>, from: nat)
    requires |a| == |b| && forall i :: from <= i < |a| ==> a[i] == b[i]
    ensures OfSites(f, a, from) == OfSites(f, b, from)
    decreases |a| - from
  {
    if from < |a| {
      SitesSame(f, a, b, from + 1);
    }
  }

  lemma {:induction false} SitesBump(f: Figure, sites: seq<Site>, from: nat, i: nat, site: Site, bytes: nat)
    requires from <= i < |sites| && OfSite(f, site) == Join(f, OfSite(f, sites[i]), FigureOfMessage(f, bytes))
    ensures OfSites(f, sites[i := site], from) == Join(f, OfSites(f, sites, from), FigureOfMessage(f, bytes))
    decreases i - from
  {
    if from == i {
      SitesSame(f, sites[i := site], sites, from + 1);
    } else {
      SitesBump(f, sites, from + 1, i, site, bytes);
    }
  }

  lemma {:induction false} SitesPush(f: Figure, sites: seq<Site>, from: nat, site: Site)
    requires from <= |sites|
    ensures OfSites(f, sites + [site], from) == Join(f, OfSites(f, sites, from), OfSite(f, site))
    decreases |sites| - from
  {
    if from < |sites| {
      SitesPush(f, sites, from + 1, site);
    }
  }

  datatype Row = Row(file: string, func: string, format: string, channel: string, line: int, counter: Counter)

  predicate HasRecords(row: Row) {
    row.counter.records != 0
  }

  function OfRows(f: Figure, rows: seq<Row>): nat {
    if rows == [] then 0 else Join(f, OfRows(f, rows[..|rows| - 1]), Of(f, rows[|rows| - 1].counter))
  }

  lemma RowsPush(f: Figure, rows: seq<Row>, row: Row)
    ensures OfRows(f, rows + [row]) == Join(f, OfRows(f, rows), Of(f, row.counter))
  {
    assert (rows + [row])[..|rows|] == rows;
  }

  lemma JoinSwap(f: Figure, a: nat, b: nat, c: nat)
    ensures Join(f, a, Join(f, b, c)) == Join(f, b, Join(f, a, c))
  {
  }

  ghost function OfMap(f: Figure, m: map<string, Counter>): nat {
    if m == map[] then 0
    else
      var k :| k in m;
      Join(f, Of(f, m[k]), OfMap(f, m - {k}))
  }

  lemma {:induction false} OfMapWithout(f: Figure, m: map<string, Counter>, k: string)
    requires k in m
    ensures OfMap(f, m) == Join(f, Of(f, m[k]), OfMap(f, m - {k}))
  {
    var first :| first in m && OfMap(f, m) == Join(f, Of(f, m[first]), OfMap(f, m - {first}));
    if first != k {
      OfMapWithout(f, m - {first}, k);
      OfMapWithout(f, m - {k}, first);
      assert m - {first} - {k} == m - {k} - {first};
      JoinSwap(f, Of(f, m[first]), Of(f, m[k]), OfMap(f, m - {first} - {k}));
    }
  }

  lemma OfMapUpdate(f: Figure, m: map<string, Counter>, k: string, c: Counter)
    ensures OfMap(f, m[k := Add(if k in m then m[k] else ZERO, c)]) == Join(f, OfMap(f, m), Of(f, c))
  {
    var after := m[k := Add(if k in m then m[k] else ZERO, c)];
    OfMapWithout(f, after, k);
    assert after - {k} == m - {k};
    if k in m {
      OfMapWithout(f, m, k);
    } else {
      assert m - {k} == m;
    }
  }

  predicate HasChannel(slots: seq<Option<ChannelStats>>, i: nat, channel: nat) {
    i < |slots| && slots[i].Some? && slots[i].value.key == channel
  }

  predicate FirstFree(slots: seq<Option<ChannelStats>>, i: nat) {
    i < |slots| && slots[i].None? && (i > 0 ==> slots[i - 1].Some?)
  }

  /** One message counted in a site: in the slot of its channel, or else in the first free slot, which
      becomes the channel's, or else in the overflow; and nothing else changes. */
  ghost predicate Counted(before: Site, after: Site, channel: nat, name: string, bytes: nat) {
    if exists i: nat :: HasChannel(before.slots, i, channel) then
      exists i: nat :: HasChannel(before.slots, i, channel) && after == WithSlot(before, i, before.slots[i].value, bytes)
    else if exists i: nat :: FirstFree(before.slots, i) then
      var added := ChannelStats(channel, name, ZERO);
      exists i: nat :: FirstFree(before.slots, i) && after == WithSlot(before, i, added, bytes)
    else
      after == before.(overflow := Bump(before.overflow, bytes))
  }

  function WithSlot(site: Site, i: nat, c: ChannelStats, bytes: nat): Site
    requires i < |site.slots|
  {
    site.(slots := site.slots[i := Some(c.(counter := Bump(c.counter, bytes)))])
  }

  /** The rows of one channel name. */
  function RowsNamed(rows: seq<Row>, name: string): seq<Row> {
    if rows == [] then []
    else
      var front, last := rows[..|rows| - 1], rows[|rows| - 1];
      if last.channel == name then RowsNamed(front, name) + [last] else RowsNamed(front, name)
  }

  ghost predicate IsByName(channels: map<string, Counter>, rows: seq<Row>) {
    && (forall name :: name in channels <==> exists row :: row in rows && row.channel == name)
    && (forall f, name <- channels :: Of(f, channels[name]) == OfRows(f, RowsNamed(rows, name)))
  }

  lemma {:induction false} NoneNamed(rows: seq<Row>, name: string)
    requires forall row <- rows :: row.channel != name
    ensures RowsNamed(rows, name) == []
  {
    if rows != [] {
      NoneNamed(rows[..|rows| - 1], name);
    }
  }

  function WithRow(channels: map<string, Counter>, row: Row): map<string, Counter> {
    channels[row.channel := Add(if row.channel in channels then channels[row.channel] else ZERO, row.counter)]
  }

  lemma NamesPush(channels: map<string, Counter>, rows: seq<Row>, row: Row, name: string)
    requires name in channels <==> exists r :: r in rows && r.channel == name
    ensures name in WithRow(channels, row) <==> exists r :: r in rows + [row] && r.channel == name
  {
    if name == row.channel {
      assert row in rows + [row];
    } else if name in channels {
      var r :| r in rows && r.channel == name;
      assert r in rows + [row];
    }
  }

  lemma FigurePush(f: Figure, channels: map<string, Counter>, rows: seq<Row>, row: Row, name: string)
    requires name in WithRow(channels, row)
    requires if name in channels then Of(f, channels[name]) == OfRows(f, RowsNamed(rows, name))
             else RowsNamed(rows, name) == []
    ensures Of(f, WithRow(channels, row)[name]) == OfRows(f, RowsNamed(rows + [row], name))
  {
    assert (rows + [row])[..|rows|] == rows;
    if name == row.channel {
      RowsPush(f, RowsNamed(rows, name), row);
    }
  }

  lemma ByNamePush(channels: map<string, Counter>, rows: seq<Row>, row: Row)
    requires IsByName(channels, rows)
    ensures IsByName(WithRow(channels, row), rows + [row])
  {
    forall name ensures name in WithRow(channels, row) <==> exists r :: r in rows + [row] && r.channel == name {
      NamesPush(channels, rows, row, name);
    }
    forall f, name | name in WithRow(channels, row)
      ensures Of(f, WithRow(channels, row)[name]) == OfRows(f, RowsNamed(rows + [row], name))
    {
      if name !in channels {
        NoneNamed(rows, name);
      }
      FigurePush(f, channels, rows, row, name);
    }
  }

  ghost predicate AddsUp(channels: map<string, Counter>, rows: seq<Row>) {
    forall f :: OfMap(f, channels) == OfRows(f, rows)
  }

  method AddToChannel(channels: map<string, Counter>, row: Row, ghost rows: seq<Row>)
    returns (after: map<string, Counter>)
    requires AddsUp(channels, rows) && IsByName(channels, rows)
    ensures AddsUp(after, rows + [row]) && IsByName(after, rows + [row])
  {
    var before := if row.channel in channels then channels[row.channel] else ZERO;
    after := channels[row.channel := Add(before, row.counter)];
    ByNamePush(channels, rows, row);
    forall f ensures OfMap(f, after) == OfRows(f, rows + [row]) {
      OfMapUpdate(f, channels, row.channel, row.counter);
      RowsPush(f, rows, row);
    }
  }

  method AddByChannel(entries: seq<Row>) returns (channels: map<string, Counter>)
    ensures AddsUp(channels, entries) && IsByName(channels, entries)
  {
    channels := map[];
    NothingAddsUp();
    for i := 0 to |entries|
      invariant AddsUp(channels, entries[..i]) && IsByName(channels, entries[..i])
    {
      channels := AddToChannel(channels, entries[i], entries[..i]);
      assert entries[..i] + [entries[i]] == entries[..i + 1];
    }
    assert entries[..|entries|] == entries;
  }

  lemma NothingAddsUp()
    ensures AddsUp(map[], []) && IsByName(map[], [])
  {
  }

  /** The slot of a channel, new if need be; None when all slots belong to other channels. */
  method GetOrCreateChannel(slots: seq<Option<ChannelStats>>, channel: nat, name: string)
    returns (after: seq<Option<ChannelStats>>, at: Option<nat>)
    requires SlotsInv(slots)
    ensures SlotsInv(after) && forall f :: OfSlots(f, after) == OfSlots(f, slots)
    ensures forall i :: 0 <= i < |slots| && slots[i].Some? ==> after[i] == slots[i]
    ensures at.Some? ==> at.value < |after| && after[at.value].Some? && after[at.value].value.key == channel
    ensures at.None? ==> after == slots
    ensures at.Some? ==>
              if HasChannel(slots, at.value, channel) then after == slots
              else FirstFree(slots, at.value) && after == slots[at.value := Some(ChannelStats(channel, name, ZERO))]
                   && forall i :: 0 <= i < |slots| && slots[i].Some? ==> slots[i].value.key != channel
    ensures at.None? <==> forall i :: 0 <= i < |slots| ==> slots[i].Some? && slots[i].value.key != channel
  {
    after := slots;
    for i := 0 to CHANNEL_SLOT_COUNT
      invariant forall j :: 0 <= j < i && slots[j].Some? ==> slots[j].value.key != channel
    {
      if slots[i].Some? && slots[i].value.key == channel {
        return after, Some(i);
      }
    }
    for i := 0 to CHANNEL_SLOT_COUNT
      invariant forall j :: 0 <= j < i ==> slots[j].Some?
    {
      if slots[i].None? {
        after := slots[i := Some(ChannelStats(channel, name, ZERO))];
        forall f {
          SlotsSame(f, after, slots, 0);
        }
        return after, Some(i);
      }
    }
    at := None;
  }

  method RecordInSite(site: Site, channel: nat, name: string, bytes: nat) returns (updated: Site)
    requires SiteInv(site)
    ensures SiteInv(updated)
    ensures forall f :: OfSite(f, updated) == Join(f, OfSite(f, site), FigureOfMessage(f, bytes))
    ensures Counted(site, updated, channel, name, bytes)
  {
    for i := 0 to CHANNEL_SLOT_COUNT {
      if site.slots[i].None? {
        break;
      }
      if site.slots[i].value.key == channel {
        updated := BumpSlot(site, i, bytes);
        return;
      }
    }
    var slots, at := GetOrCreateChannel(site.slots, channel, name);
    if at.Some? {
      updated := BumpSlot(site.(slots := slots), at.value, bytes);
    } else {
      updated := site.(overflow := Bump(site.overflow, bytes));
    }
  }

  method BumpSlot(site: Site, i: nat, bytes: nat) returns (updated: Site)
    requires SiteInv(site) && i < |site.slots| && site.slots[i].Some?
    ensures SiteInv(updated) && updated == WithSlot(site, i, site.slots[i].value, bytes)
    ensures forall f :: OfSite(f, updated) == Join(f, OfSite(f, site), FigureOfMessage(f, bytes))
  {
    var c := site.slots[i].value;
    var bumped := c.(counter := Bump(c.counter, bytes));
    updated := site.(slots := site.slots[i := Some(bumped)]);
    forall f {
      SlotsBump(f, site.slots, 0, i, bumped, bytes);
    }
  }

  /** The same site and channels, without counts. */
  ghost predicate IsCleared(before: Site, after: Site) {
    && |after.slots| == |before.slots| && after == before.(slots := after.slots, overflow := ZERO)
    && forall i :: 0 <= i < |before.slots| ==>
         after.slots[i] == if before.slots[i].None? then None else Some(before.slots[i].value.(counter := ZERO))
  }

  /** A site after a reset. */
  method ClearedSite(site: Site) returns (r: Site)
    requires SiteInv(site)
    ensures SiteInv(r) && forall f :: OfSite(f, r) == 0
    ensures IsCleared(site, r)
  {
    var slots := site.slots;
    for i := 0 to CHANNEL_SLOT_COUNT
      invariant SlotsInv(slots)
      invariant forall j, f :: 0 <= j < i ==> OfSlot(f, slots[j]) == 0
      invariant forall j :: i <= j < |slots| ==> slots[j] == site.slots[j]
      invariant forall j :: 0 <= j < i ==>
        slots[j] == if site.slots[j].None? then None else Some(site.slots[j].value.(counter := ZERO))
    {
      if slots[i].Some? {
        slots := slots[i := Some(slots[i].value.(counter := ZERO))];
      }
    }
    r := site.(slots := slots, overflow := ZERO);
    forall f {
      NothingInSlots(f, slots, 0);
    }
  }

  function RowOf(site: Site, channel: string, counter: Counter): Row {
    Row(site.file, site.func, site.format, channel, site.line, counter)
  }

  function Shown(row: Row): seq<Row> {
    if HasRecords(row) then [row] else []
  }

  function SlotRow(site: Site, slot: Option<ChannelStats>): seq<Row> {
    if slot.None? then [] else Shown(RowOf(site, slot.value.name, slot.value.counter))
  }

  function SlotRows(site: Site, n: nat): seq<Row>
    requires n <= |site.slots|
  {
    if n == 0 then [] else SlotRows(site, n - 1) + SlotRow(site, site.slots[n - 1])
  }

  function SiteRows(site: Site): seq<Row> {
    SlotRows(site, |site.slots|) + Shown(RowOf(site, "<other channels>", site.overflow))
  }

  function AllRows(sites: seq<Site>, n: nat): seq<Row>
    requires n <= |sites|
  {
    if n == 0 then [] else AllRows(sites, n - 1) + SiteRows(sites[n - 1])
  }

  predicate IsSlotRow(site: Site, j: nat, row: Row) {
    j < |site.slots| && site.slots[j].Some?
    && Describes(row, site) && row.channel == site.slots[j].value.name && row.counter == site.slots[j].value.counter
  }

  predicate Describes(row: Row, site: Site) {
    row.file == site.file && row.func == site.func && row.format == site.format && row.line == site.line
  }

  predicate IsRowOf(site: Site, row: Row) {
    || (Describes(row, site) && row.channel == "<other channels>" && row.counter == site.overflow)
    || exists j: nat :: j < |site.slots| && IsSlotRow(site, j, row)
  }

  lemma {:induction false} SlotRowsMean(site: Site, n: nat, row: Row)
    requires n <= |site.slots|
    ensures row in SlotRows(site, n) <==> HasRecords(row) && exists j: nat :: j < n && IsSlotRow(site, j, row)
  {
    if n > 0 {
      SlotRowsMean(site, n - 1, row);
      assert row in SlotRow(site, site.slots[n - 1]) <==> HasRecords(row) && IsSlotRow(site, n - 1, row);
    }
  }

  /** A snapshot shows, for each site, every channel and the overflow with their counters, where there
      are records, and nothing else. */
  lemma SiteRowsMean(site: Site, row: Row)
    ensures row in SiteRows(site) <==> row.counter.records > 0 && IsRowOf(site, row)
  {
    SlotRowsMean(site, |site.slots|, row);
  }

  lemma {:induction false} RowsMean(sites: seq<Site>, n: nat, row: Row)
    requires n <= |sites|
    ensures row in AllRows(sites, n) <==> exists i: nat :: i < n && row in SiteRows(sites[i])
  {
    if n > 0 {
      RowsMean(sites, n - 1, row);
    }
  }

  lemma {:induction false} NoRowsBehind(site: Site, n: nat, k: nat)
    requires n <= k <= |site.slots| && forall i :: n <= i < k ==> site.slots[i].None?
    ensures SlotRows(site, k) == SlotRows(site, n)
    decreases k
  {
    if k > n {
      NoRowsBehind(site, n, k - 1);
    }
  }

  lemma ShownFigure(f: Figure, before: seq<Row>, row: Row)
    requires Consistent(row.counter)
    ensures OfRows(f, before + Shown(row)) == Join(f, OfRows(f, before), Of(f, row.counter))
  {
    if HasRecords(row) {
      RowsPush(f, before, row);
    } else {
      assert before + Shown(row) == before;
    }
  }

  lemma {:induction false} SlotRowsFigure(f: Figure, before: seq<Row>, site: Site, n: nat)
    requires SiteInv(site) && n <= |site.slots|
    ensures Join(f, OfRows(f, before + SlotRows(site, n)), OfSlots(f, site.slots, n))
         == Join(f, OfRows(f, before), OfSlots(f, site.slots))
  {
    if n == 0 {
      assert before + SlotRows(site, 0) == before;
    } else {
      SlotRowsFigure(f, before, site, n - 1);
      var front, slot := before + SlotRows(site, n - 1), site.slots[n - 1];
      assert before + SlotRows(site, n) == front + SlotRow(site, slot);
      if slot.Some? {
        ShownFigure(f, front, RowOf(site, slot.value.name, slot.value.counter));
      } else {
        assert front + SlotRow(site, slot) == front;
      }
    }
  }

  /** The rows of a site add up to it. */
  lemma SiteRowsFigure(f: Figure, before: seq<Row>, site: Site)
    requires SiteInv(site)
    ensures OfRows(f, before + SiteRows(site)) == Join(f, OfRows(f, before), OfSite(f, site))
  {
    var row, front := RowOf(site, "<other channels>", site.overflow), before + SlotRows(site, |site.slots|);
    assert before + SiteRows(site) == front + Shown(row);
    assert OfRows(f, front) == Join(f, OfRows(f, before), OfSlots(f, site.slots)) by {
      SlotRowsFigure(f, before, site, |site.slots|);
    }
    ShownFigure(f, front, row);
    JoinInARow(f, OfRows(f, before), OfSlots(f, site.slots), Of(f, site.overflow));
  }

  lemma JoinMoves(f: Figure, before: nat, one: nat, rest: nat, done: nat, left: nat)
    requires done == Join(f, before, one) && left == Join(f, one, rest)
    ensures Join(f, done, rest) == Join(f, before, left)
  {
  }

  lemma JoinInARow(f: Figure, a: nat, b: nat, c: nat)
    ensures Join(f, Join(f, a, b), c) == Join(f, a, Join(f, b, c))
  {
  }

  lemma AllRowsStep(f: Figure, sites: seq<Site>, n: nat)
    requires n < |sites| && SiteInv(sites[n])
    ensures OfRows(f, AllRows(sites, n + 1)) == Join(f, OfRows(f, AllRows(sites, n)), OfSite(f, sites[n]))
    ensures OfSites(f, sites, n) == Join(f, OfSite(f, sites[n]), OfSites(f, sites, n + 1))
  {
    SiteRowsFigure(f, AllRows(sites, n), sites[n]);
  }

  lemma {:induction false} AllRowsFigure(f: Figure, sites: seq<Site>, n: nat)
    requires n <= |sites| && forall i :: 0 <= i < |sites| ==> SiteInv(sites[i])
    ensures Join(f, OfRows(f, AllRows(sites, n)), OfSites(f, sites, n)) == OfSites(f, sites)
  {
    if n > 0 {
      var m := n - 1;
      AllRowsFigure(f, sites, m);
      AllRowsStep(f, sites, m);
      JoinMoves(f, OfRows(f, AllRows(sites, m)), OfSite(f, sites[m]), OfSites(f, sites, n),
                OfRows(f, AllRows(sites, n)), OfSites(f, sites, m));
    }
  }

  method SnapshotSite(site: Site, before: seq<Row>) returns (rows: seq<Row>)
    requires SiteInv(site)
    ensures rows == before + SiteRows(site)
  {
    rows := before;
    var n := 0;
    while n < CHANNEL_SLOT_COUNT && site.slots[n].Some?
      invariant n <= CHANNEL_SLOT_COUNT && rows == before + SlotRows(site, n)
    {
      var c := site.slots[n].value;
      rows := AddRow(RowOf(site, c.name, c.counter), rows);
      n := n + 1;
    }
    NoRowsBehind(site, n, CHANNEL_SLOT_COUNT);
    rows := AddRow(RowOf(site, "<other channels>", site.overflow), rows);
  }

  /** A row without records is not shown. */
  method AddRow(row: Row, before: seq<Row>) returns (rows: seq<Row>)
    ensures rows == before + Shown(row)
  {
    rows := before;
    if row.counter.records != 0 {
      rows := rows + [row];
    }
  }

  /** CopyMetadata: a text over its limit is cut there and ends in three dots. */
  function Shortened(text: string, limit: nat): string {
    if |text| > limit then text[..limit] + "..." else text
  }

  function NewSite(key: nat, file: string, func: string, line: int, format: string): Site {
    Site(key, Shortened(file, 1024), Shortened(func, 512), line, Shortened(format, 1024), [None, None, None, None], ZERO)
  }

  /** The test for a site made before: the stored texts against those of the call. */
  predicate IsSiteOf(site: Site, file: string, func: string, line: int) {
    site.line == line && site.file == file && site.func == func
  }

  /** A text that shortening leaves as it is: within the limit, or dots from the limit on. */
  predicate Kept(text: string, limit: nat) {
    |text| <= limit || (|text| == limit + 3 && text[limit..] == "...")
  }

  lemma KeptWhenShortened(text: string, limit: nat)
    ensures Shortened(text, limit) == text <==> Kept(text, limit)
  {
    if |text| > limit {
      assert text == text[..limit] + text[limit..];
      assert (text[..limit] + "...")[limit..] == "...";
    }
  }

  /** A call site finds its own site again exactly when shortening keeps its file and method; with a
      longer one every search makes another site. */
  lemma SiteFoundAgain(key: nat, file: string, func: string, line: int, format: string)
    ensures IsSiteOf(NewSite(key, file, func, line, format), file, func, line) <==> Kept(file, 1024) && Kept(func, 512)
  {
    KeptWhenShortened(file, 1024);
    KeptWhenShortened(func, 512);
  }

  class Collector {
    var sites: seq<Site>
    var siteByKey: map<nat, nat>      // key of a call site to the latest site made for it
    ghost var log: seq<nat>           // message sizes recorded since the last reset

    ghost predicate Valid()
      reads this
    {
      && (forall i :: 0 <= i < |sites| ==> SiteInv(sites[i]))
      && (forall k <- siteByKey :: siteByKey[k] < |sites|)
      && (forall f :: OfSites(f, sites) == FigureOfLog(f, log))
    }

    constructor ()
      ensures Valid() && log == []
    {
      sites, siteByKey, log := [], map[], [];
    }

    method GetOrCreateSite(key: nat, file: string, func: string, line: int, format: string) returns (at: nat)
      requires Valid()
      modifies this`sites, this`siteByKey
      ensures Valid() && at < |sites|
      ensures key in siteByKey && siteByKey[key] == at && siteByKey == old(siteByKey)[key := at]
      ensures if key in old(siteByKey) && IsSiteOf(old(sites)[old(siteByKey)[key]], file, func, line)
              then sites == old(sites) && at == old(siteByKey)[key]
              else sites == old(sites) + [NewSite(key, file, func, line, format)] && at == |old(sites)|
    {
      if key in siteByKey {
        var existing := siteByKey[key];
        if IsSiteOf(sites[existing], file, func, line) {
          return existing;
        }
      }
      var site := NewSite(key, file, func, line, format);
      forall f ensures OfSites(f, sites + [site]) == OfSites(f, sites) {
        NothingInSlots(f, site.slots, 0);
        SitesPush(f, sites, 0, site);
      }
      at := |sites|;
      sites := sites + [site];
      siteByKey := siteByKey[key := at];
    }

    method RecordAt(at: nat, channel: nat, name: string, bytes: nat)
      requires Valid() && at < |sites|
      modifies this`sites, this`log
      ensures Valid() && log == old(log) + [bytes] && |sites| == |old(sites)|
      ensures Counted(old(sites)[at], sites[at], channel, name, bytes)
      ensures sites == old(sites)[at := sites[at]]
    {
      var updated := RecordInSite(sites[at], channel, name, bytes);
      forall f {
        SitesBump(f, sites, 0, at, updated, bytes);
      }
      sites := sites[at := updated];
      log := log + [bytes];
      assert log[..|log| - 1] == old(log);
    }

    /** One message of a call site on a channel. `cached` is the site remembered at the call site. */
    method Record(cached: Option<nat>, key: nat, file: string, func: string, line: int, format: string,
                  channel: nat, name: string, bytes: nat)
      returns (at: nat)
      requires Valid() && (cached.Some? ==> cached.value < |sites|)
      modifies this
      ensures Valid() && log == old(log) + [bytes]
      ensures at < |sites| && |old(sites)| <= |sites| <= |old(sites)| + 1
      ensures if cached.Some? then at == cached.value && siteByKey == old(siteByKey) && |sites| == |old(sites)|
              else siteByKey == old(siteByKey)[key := at]
      ensures at == |old(sites)| || (at < |old(sites)| == |sites|)
      ensures cached.None? ==>
                (at < |old(sites)| <==>
                 key in old(siteByKey) && IsSiteOf(old(sites)[old(siteByKey)[key]], file, func, line))
      ensures Counted(if at < |old(sites)| then old(sites)[at] else NewSite(key, file, func, line, format),
                      sites[at], channel, name, bytes)
      ensures forall i :: 0 <= i < |old(sites)| && i != at ==> sites[i] == old(sites)[i]
    {
      if cached.Some? {
        at := cached.value;
      } else {
        at := GetOrCreateSite(key, file, func, line, format);
      }
      RecordAt(at, channel, name, bytes);
    }

    method Reset()
      requires Valid()
      modifies this
      ensures Valid() && log == [] && |sites| == |old(sites)| && siteByKey == old(siteByKey)
      ensures forall i :: 0 <= i < |sites| ==> IsCleared(old(sites)[i], sites[i])
    {
      var cleared: seq<Site> := [];
      for i := 0 to |sites|
        invariant |cleared| == i && sites == old(sites) && siteByKey == old(siteByKey)
        invariant forall j :: 0 <= j < i ==> SiteInv(cleared[j]) && IsCleared(sites[j], cleared[j])
        invariant forall f :: OfSites(f, cleared) == 0
      {
        var site := ClearedSite(sites[i]);
        forall f {
          SitesPush(f, cleared, 0, site);
        }
        cleared := cleared + [site];
      }
      sites := cleared;
      log := [];
    }

    /** The rows of one snapshot: every channel and overflow counter that has records. */
    method SnapshotEntries() returns (rows: seq<Row>)
      requires Valid()
      ensures forall f :: OfRows(f, rows) == FigureOfLog(f, log)
      ensures rows == AllRows(sites, |sites|)
    {
      rows := [];
      for i := 0 to |sites|
        invariant rows == AllRows(sites, i)
      {
        rows := SnapshotSite(sites[i], rows);
      }
      forall f {
        AllRowsFigure(f, sites, |sites|);
      }
    }

    /** Rows added up by channel name. */
    method SnapshotChannels() returns (channels: map<string, Counter>)
      requires Valid()
      ensures forall f :: OfMap(f, channels) == FigureOfLog(f, log)
      ensures IsByName(channels, AllRows(sites, |sites|))
    {
      var entries := SnapshotEntries();
      channels := AddByChannel(entries);
    }
  }
}
