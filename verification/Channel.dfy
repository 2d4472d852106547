/** Routing of one message through channels, their backends and their links. */
module Channels {
  import opened ReentryGuards
  import opened Wrappers

  datatype Context = Context(level: int, subsystem: nat, addDisableLink: bool, removeDisableLink: bool)

  class Backend {
    var freezed: bool

    constructor ()
      ensures !freezed
    {
      freezed := false;
    }
  }

  class Logger {
    var channels: map<string, Channel>
    var subsystemLevels: map<nat, int>

    function SubsystemLevel(subsystem: nat): Option<int>
      reads this`subsystemLevels
    {
      if subsystem != 0 && subsystem in subsystemLevels then Some(subsystemLevels[subsystem]) else None
    }
  }

  /** What one message sees of a channel: whether it is let in, where it is forwarded, and the
      backends that take it, in order. */
  datatype View = View(admits: bool, next: Option<Channel>, own: seq<Backend>)

  /** The messages handed to backends, in order. */
  class Trace {
    var log: seq<(Channel, Backend)>
  }

  function Unfrozen(backends: seq<Backend>): seq<Backend>
    reads backends
  {
    if backends == [] then []
    else Unfrozen(backends[..|backends| - 1]) + if backends[|backends| - 1].freezed then [] else [backends[|backends| - 1]]
  }

  class Channel {
    var enabled: bool
    var linked: bool
    var backendCount: nat
    var active: bool
    var levelFilter: int
    var disableLink: bool                  // flag of the channel's own output flags
    var backends: seq<Backend>
    var link: Option<string>
    var linkTo: Channel?
    var displayFilter: Option<Context -> bool>

    ghost predicate Valid()
      reads this
    {
      && (link.Some? || linkTo != null ==> linked)
      && backendCount == |backends|
      && Distinct(backends)
      && active == (linked || (enabled && backendCount > 0))
    }

    constructor (level: int, disableLink: bool)
      ensures Valid() && enabled && !active && backends == [] && link == None && linkTo == null
    {
      enabled, linked, backendCount, active := true, false, 0, false;
      levelFilter, backends, link, linkTo, displayFilter := level, [], None, null, None;
      this.disableLink := disableLink;
    }

    method UpdateActive()
      modifies this`active
      ensures active == (linked || (enabled && backendCount > 0))
    {
      active := linked || (enabled && backendCount > 0);
    }

    method AddLinkByName(to: string)
      requires Valid()
      modifies this`link, this`linked, this`active
      ensures Valid() && link == Some(to) && active
    {
      link := Some(to);
      linked := true;
      UpdateActive();
    }

    /** A null target still marks the channel as linked. */
    method AddLink(to: Channel?, shutdownCalled: bool)
      requires Valid()
      modifies this`linkTo, this`linked, this`active
      ensures Valid()
      ensures if shutdownCalled then linkTo == old(linkTo) && linked == old(linked) && active == old(active)
              else linkTo == to && active
    {
      if shutdownCalled {
        return;
      }
      linkTo := to;
      linked := true;
      UpdateActive();
    }

    method RemoveLink()
      requires Valid()
      modifies this`link, this`linkTo, this`linked, this`active
      ensures Valid() && link == None && linkTo == null && (active <==> enabled && backends != [])
    {
      link, linkTo := None, null;
      linked := false;
      UpdateActive();
    }

    method SetEnabled(enable: bool)
      requires Valid()
      modifies this`enabled, this`active
      ensures Valid() && enabled == enable
    {
      enabled := enable;
      UpdateActive();
    }

    method AddBackend(backend: Backend, shutdownCalled: bool)
      requires Valid()
      modifies this`backends, this`backendCount, this`active
      ensures Valid()
      ensures backends == old(backends) + if shutdownCalled || backend in old(backends) then [] else [backend]
    {
      if shutdownCalled {
        return;
      }
      for i := 0 to |backends|
        invariant backend !in backends[..i]
        invariant Valid() && backends == old(backends)
      {
        if backends[i] == backend {
          return;
        }
      }
      assert backends == backends[..|backends|];
      backends := backends + [backend];
      backendCount := |backends|;
      UpdateActive();
    }

    method RemoveBackend(backend: Backend) returns (found: bool)
      requires Valid()
      modifies this`backends, this`backendCount, this`active, backend
      ensures Valid()
      ensures found <==> backend in old(backends)
      ensures found ==> backend.freezed
      ensures found ==>
                exists i ::
                  && 0 <= i < |old(backends)| && old(backends)[i] == backend
                  && backends == old(backends)[..i] + old(backends)[i + 1..]
      ensures !found ==> backends == old(backends)
    {
      for i := 0 to |backends|
        invariant backend !in backends[..i]
        invariant Valid() && backends == old(backends) && backend.freezed == old(backend.freezed)
      {
        if backends[i] == backend {
          backend.freezed := true;
          backends := backends[..i] + backends[i + 1..];
          backendCount := |backends|;
          UpdateActive();
          return true;
        }
      }
      assert backends == backends[..|backends|];
      found := false;
    }

    method RemoveBackends()
      requires Valid()
      modifies this`backends, this`backendCount, this`active, backends
      ensures Valid() && backends == [] && (active <==> linked)
      ensures forall b <- old(backends) :: b.freezed
    {
      for i := 0 to |backends|
        invariant Valid() && backends == old(backends) && linked == old(linked)
        invariant forall j :: 0 <= j < i ==> backends[j].freezed
      {
        backends[i].freezed := true;
      }
      backends := [];
      backendCount := 0;
      UpdateActive();
    }

    function FilterLevel(context: Context, logger: Logger): int
      reads this`levelFilter, logger`subsystemLevels
    {
      var subsystem := logger.SubsystemLevel(context.subsystem);
      if subsystem.Some? then subsystem.value else levelFilter
    }

    function Admits(context: Context, logger: Logger): bool
      reads this`enabled, this`levelFilter, this`displayFilter, logger`subsystemLevels
    {
      && enabled
      && (displayFilter.None? || displayFilter.value(context))
      && context.level >= FilterLevel(context, logger)
    }

    function Next(context: Context, logger: Logger): Option<Channel>
      reads this`disableLink, this`link, this`linkTo, logger`channels
    {
      var disable := (disableLink || context.addDisableLink) && !context.removeDisableLink;
      if disable then None
      else if linkTo != null then Some(linkTo)
      else if link.Some? && link.value in logger.channels then Some(logger.channels[link.value])
      else None
    }

    function ViewOf(context: Context, logger: Logger): View
      reads this`enabled, this`levelFilter, this`displayFilter, this`disableLink, this`link, this`linkTo, this`backends
      reads backends, logger
    {
      View(Admits(context, logger), Next(context, logger), Unfrozen(backends))
    }

    /** Whether a caller goes on to format the message at all. */
    function IsOutputActive(context: Context, logger: Logger): bool
      reads this`levelFilter, this`active, logger`subsystemLevels
    {
      if context.subsystem != 0 && logger.subsystemLevels != map[] then active
      else context.level >= levelFilter && active
    }

    /** Delivers what Deliveries says, leaves the guard as it was, and counts every call. */
    method Display(context: Context, logger: Logger, guard: GuardState<Channel?>, trace: Trace, shutdownCalled: bool,
                   ghost graph: map<Channel, View>)
      requires this in graph && Closed(graph) && guard.Valid()
      requires forall c <- graph :: c.ViewOf(context, logger) == graph[c]
      modifies guard, guard.smallStack, trace
      ensures guard.Valid() && guard.Stack() == old(guard.Stack())
      ensures trace.log == old(trace.log) + if shutdownCalled then [] else Deliveries(graph, this, old(guard.Stack()))
      decreases Free(graph, guard.Stack()), 0
    {
      if shutdownCalled {
        return;
      }
      if !enabled {
        return;
      }
      var entered := guard.Enter(this);
      if !entered {
        return;
      }
      assert this in Free(graph, old(guard.Stack())) && this !in Free(graph, guard.Stack());
      DisplayEntered(context, logger, guard, trace, graph);
      guard.Leave(entered);
    }

    /** What Display does between entering and leaving the guard. */
    method DisplayEntered(context: Context, logger: Logger, guard: GuardState<Channel?>, trace: Trace,
                          ghost graph: map<Channel, View>)
      requires this in graph && Closed(graph) && guard.Valid() && enabled
      requires forall c <- graph :: c.ViewOf(context, logger) == graph[c]
      modifies guard, guard.smallStack, trace
      ensures guard.Valid() && guard.Stack() == old(guard.Stack())
      ensures trace.log == old(trace.log) + Passed(graph, this, old(guard.Stack()))
      decreases Free(graph, guard.Stack()), 3
    {
      assert ViewOf(context, logger) == graph[this];
      if displayFilter.Some? && !displayFilter.value(context) {
        return;
      }
      if context.level < FilterLevel(context, logger) {
        return;
      }
      DisplayAdmitted(context, logger, guard, trace, graph);
    }

    /** The second half of Display: the linked channel first, without the lock, then the own backends. */
    method DisplayAdmitted(context: Context, logger: Logger, guard: GuardState<Channel?>, trace: Trace,
                           ghost graph: map<Channel, View>)
      requires this in graph && Closed(graph) && guard.Valid()
      requires graph[this].admits && forall c <- graph :: c.ViewOf(context, logger) == graph[c]
      modifies guard, guard.smallStack, trace
      ensures guard.Valid() && guard.Stack() == old(guard.Stack())
      ensures trace.log == old(trace.log) + Passed(graph, this, old(guard.Stack()))
      decreases Free(graph, guard.Stack()), 2
    {
      assert ViewOf(context, logger) == graph[this];
      ghost var linked := DisplayLinked(context, logger, guard, trace, graph);
      DisplayOwn(trace);
      AppendAssociative(old(trace.log), linked, Tagged(this, graph[this].own));
    }

    /** The channel this one is linked to, if any. */
    method DisplayLinked(context: Context, logger: Logger, guard: GuardState<Channel?>, trace: Trace,
                         ghost graph: map<Channel, View>)
      returns (ghost linked: seq<(Channel, Backend)>)
      requires this in graph && Closed(graph) && guard.Valid()
      requires forall c <- graph :: c.ViewOf(context, logger) == graph[c]
      modifies guard, guard.smallStack, trace
      ensures guard.Valid() && guard.Stack() == old(guard.Stack())
      ensures linked == if graph[this].next.Some? then Deliveries(graph, graph[this].next.value, old(guard.Stack()))
                        else []
      ensures trace.log == old(trace.log) + linked
      decreases Free(graph, guard.Stack()), 1
    {
      assert ViewOf(context, logger) == graph[this];
      var next := Next(context, logger);
      if next.Some? {
        linked := Deliveries(graph, next.value, guard.Stack());
        next.value.Display(context, logger, guard, trace, false, graph);
      } else {
        linked := [];
      }
    }

    method DisplayOwn(trace: Trace)
      modifies trace
      ensures trace.log == old(trace.log) + Tagged(this, Unfrozen(backends))
    {
      for i := 0 to |backends|
        invariant trace.log == old(trace.log) + Tagged(this, Unfrozen(backends[..i]))
      {
        assert backends[..i + 1][..i] == backends[..i];
        if !backends[i].freezed {
          trace.log := trace.log + [(this, backends[i])];
        }
      }
      assert backends[..|backends|] == backends;
    }
  }

  lemma AppendAssociative<T>(a: seq<T>, b: seq<T>, c: seq<T>)
    ensures (a + b) + c == a + (b + c)
  {
  }

  /** The channels a message can still enter. */
  ghost function Free(graph: map<Channel, View>, stack: seq<Channel?>): set<Channel> {
    set c | c in graph && c !in stack
  }

  ghost predicate Closed(graph: map<Channel, View>) {
    forall c <- graph :: graph[c].next.Some? ==> graph[c].next.value in graph
  }

  function Tagged(c: Channel, own: seq<Backend>): seq<(Channel, Backend)> {
    seq(|own|, i requires 0 <= i < |own| => (c, own[i]))
  }

  /** One call, started with `stack` on the guard. */
  ghost function Deliveries(graph: map<Channel, View>, c: Channel, stack: seq<Channel?>): seq<(Channel, Backend)>
    requires c in graph && Closed(graph)
    decreases Free(graph, stack), 0
  {
    if c in stack then []
    else
      assert c in Free(graph, stack) && c !in Free(graph, stack + [c]);
      Passed(graph, c, stack + [c])
  }

  /** Past the guard: the linked channel's deliveries, then the own backends. */
  ghost function Passed(graph: map<Channel, View>, c: Channel, stack: seq<Channel?>): seq<(Channel, Backend)>
    requires c in graph && Closed(graph)
    decreases Free(graph, stack), 1
  {
    if !graph[c].admits then []
    else
      (if graph[c].next.Some? then Deliveries(graph, graph[c].next.value, stack) else [])
      + Tagged(c, graph[c].own)
  }

  predicate Linked(graph: map<Channel, View>, path: seq<Channel>, i: int) {
    0 <= i < |path| - 1 && path[i] in graph && graph[path[i]].next == Some(path[i + 1])
  }

  /** The channels a message goes through, found without a guard: the longest walk along the links
      from `c` over channels that admit the message, are not on the stack and do not repeat. */
  ghost predicate IsChain(graph: map<Channel, View>, c: Channel, stack: seq<Channel?>, path: seq<Channel>) {
    && Distinct(path)
    && (forall i :: 0 <= i < |path| ==> path[i] in graph && graph[path[i]].admits && path[i] !in stack)
    && (forall i :: 0 <= i < |path| - 1 ==> Linked(graph, path, i))
    && (path != [] ==> path[0] == c)
    && var end := if path == [] then Some(c) else graph[path[|path| - 1]].next;
       end.Some? ==> end.value in graph && (!graph[end.value].admits || end.value in stack || end.value in path)
  }

  ghost function PostOrder(graph: map<Channel, View>, path: seq<Channel>): seq<(Channel, Backend)>
    requires forall i :: 0 <= i < |path| ==> path[i] in graph
  {
    if path == [] then [] else PostOrder(graph, path[1..]) + Tagged(path[0], graph[path[0]].own)
  }

  lemma {:induction false} ChainTail(graph: map<Channel, View>, c: Channel, stack: seq<Channel?>, path: seq<Channel>)
    requires Closed(graph) && IsChain(graph, c, stack, path) && path != [] && graph[c].next.Some?
    ensures IsChain(graph, graph[c].next.value, stack + [c], path[1..])
  {
    var rest := path[1..];
    assert forall i :: 0 <= i < |rest| ==> rest[i] == path[i + 1];
    assert forall x :: x in path <==> x == c || x in rest;
    assert |path| > 1 ==> Linked(graph, path, 0);
    forall i | 0 <= i < |rest| - 1 ensures Linked(graph, rest, i) {
      assert Linked(graph, path, i + 1);
    }
  }

  lemma ChainEnds(graph: map<Channel, View>, c: Channel, stack: seq<Channel?>, path: seq<Channel>, i: nat)
    requires IsChain(graph, c, stack, path) && i < |path| && graph[path[i]].next.None?
    ensures i == |path| - 1
  {
    assert i < |path| - 1 ==> Linked(graph, path, i);
  }

  /** Whatever the guard already holds, a message is delivered along the chain, last channel first. */
  lemma {:induction false} DeliveriesFollowChain(graph: map<Channel, View>, c: Channel, stack: seq<Channel?>,
                                                 path: seq<Channel>)
    requires c in graph && Closed(graph) && IsChain(graph, c, stack, path)
    ensures Deliveries(graph, c, stack) == PostOrder(graph, path)
    decreases |path|
  {
    if path != [] {
      assert path[0] == c;
      if graph[c].next.Some? {
        ChainTail(graph, c, stack, path);
        DeliveriesFollowChain(graph, graph[c].next.value, stack + [c], path[1..]);
      } else {
        ChainEnds(graph, c, stack, path, 0);
      }
    }
  }

  /** Every message has such a chain, whatever cycles the links make. */
  lemma {:induction false} ChainExists(graph: map<Channel, View>, c: Channel, stack: seq<Channel?>)
    returns (path: seq<Channel>)
    requires c in graph && Closed(graph)
    ensures IsChain(graph, c, stack, path)
    decreases Free(graph, stack)
  {
    if c in stack || !graph[c].admits {
      path := [];
    } else if graph[c].next.None? {
      path := [c];
    } else {
      assert c in Free(graph, stack) && c !in Free(graph, stack + [c]);
      var rest := ChainExists(graph, graph[c].next.value, stack + [c]);
      path := [c] + rest;
      assert forall i :: 0 < i < |path| ==> path[i] == rest[i - 1];
      assert forall x :: x in path <==> x == c || x in rest;
      forall i | 0 <= i < |path| - 1 ensures Linked(graph, path, i) {
        assert i > 0 ==> Linked(graph, rest, i - 1);
      }
    }
  }

  lemma {:induction false} PostOrderHolds(graph: map<Channel, View>, path: seq<Channel>, d: (Channel, Backend))
    requires forall i :: 0 <= i < |path| ==> path[i] in graph
    ensures d in PostOrder(graph, path) <==> d.0 in path && d.1 in graph[d.0].own
  {
    if path != [] {
      PostOrderHolds(graph, path[1..], d);
      var own := graph[path[0]].own;
      assert d in Tagged(path[0], own) <==> d.0 == path[0] && d.1 in own by {
        if d.0 == path[0] && d.1 in own {
          var i :| 0 <= i < |own| && own[i] == d.1;
          assert Tagged(path[0], own)[i] == d;
        }
      }
      assert path == [path[0]] + path[1..];
    }
  }

  lemma {:induction false} PostOrderDistinct(graph: map<Channel, View>, path: seq<Channel>)
    requires Distinct(path) && forall i :: 0 <= i < |path| ==> path[i] in graph && Distinct(graph[path[i]].own)
    ensures Distinct(PostOrder(graph, path))
  {
    if path != [] {
      PostOrderDistinct(graph, path[1..]);
      var rest, own := PostOrder(graph, path[1..]), Tagged(path[0], graph[path[0]].own);
      forall i, j | 0 <= i < |rest| && 0 <= j < |own| ensures rest[i] != own[j] {
        PostOrderHolds(graph, path[1..], rest[i]);
        assert path[0] !in path[1..];
      }
    }
  }

  lemma {:induction false} UnfrozenHolds(backends: seq<Backend>, b: Backend)
    ensures b in Unfrozen(backends) <==> b in backends && !b.freezed
  {
    if backends != [] {
      UnfrozenHolds(backends[..|backends| - 1], b);
      assert backends == backends[..|backends| - 1] + [backends[|backends| - 1]];
    }
  }

  lemma {:induction false} UnfrozenDistinct(backends: seq<Backend>)
    requires Distinct(backends)
    ensures Distinct(Unfrozen(backends))
  {
    if backends != [] {
      UnfrozenDistinct(backends[..|backends| - 1]);
      UnfrozenHolds(backends[..|backends| - 1], backends[|backends| - 1]);
    }
  }

  /** One message reaches exactly the unfrozen backends of the channels on its chain, each once. */
  lemma DeliveredOnceAlongChain(graph: map<Channel, View>, c: Channel, stack: seq<Channel?>, path: seq<Channel>,
                                context: Context, logger: Logger)
    requires c in graph && Closed(graph) && IsChain(graph, c, stack, path)
    requires forall d <- graph :: d.Valid() && d.ViewOf(context, logger) == graph[d]
    ensures Distinct(Deliveries(graph, c, stack))
    ensures forall d, b :: (d, b) in Deliveries(graph, c, stack) <==> d in path && b in d.backends && !b.freezed
  {
    DeliveriesFollowChain(graph, c, stack, path);
    forall i | 0 <= i < |path| ensures Distinct(graph[path[i]].own) {
      assert path[i].ViewOf(context, logger) == graph[path[i]];
      UnfrozenDistinct(path[i].backends);
    }
    PostOrderDistinct(graph, path);
    forall d, b ensures (d, b) in Deliveries(graph, c, stack) <==> d in path && b in d.backends && !b.freezed {
      PostOrderHolds(graph, path, (d, b));
      if d in path {
        assert d.ViewOf(context, logger) == graph[d];
        UnfrozenHolds(d.backends, b);
      }
    }
  }

  /** The early test never drops a message that a backend would have taken. */
  lemma InactiveDeliversNothing(graph: map<Channel, View>, c: Channel, stack: seq<Channel?>, context: Context,
                                logger: Logger)
    requires c in graph && Closed(graph) && c.Valid() && c.ViewOf(context, logger) == graph[c]
    requires !c.IsOutputActive(context, logger)
    ensures Deliveries(graph, c, stack) == []
  {
    if c.active {
      assert !c.Admits(context, logger);
    } else if c.enabled {
      assert c.Next(context, logger) == None && c.backends == [];
    }
  }

  // What a message meets at a channel, on the fields

  /** The level filter a message meets: the level of its subsystem, and the channel's own for a message
      without a subsystem or one that has no level of its own. */
  ghost predicate PassesLevel(c: Channel, context: Context, logger: Logger)
    reads c`levelFilter, logger`subsystemLevels
  {
    && (context.subsystem != 0 && context.subsystem in logger.subsystemLevels ==>
          context.level >= logger.subsystemLevels[context.subsystem])
    && (context.subsystem == 0 || context.subsystem !in logger.subsystemLevels ==> context.level >= c.levelFilter)
  }

  ghost predicate PassesFilter(c: Channel, context: Context)
    reads c`displayFilter
  {
    forall f :: c.displayFilter == Some(f) ==> f(context)
  }

  lemma ChainBegins(graph: map<Channel, View>, c: Channel, stack: seq<Channel?>, path: seq<Channel>)
    requires c in graph && IsChain(graph, c, stack, path) && c !in stack
    ensures c in path <==> graph[c].admits
  {
    if path != [] {
      assert path[0] in graph;
    }
  }

  /** The backends of a channel off the stack take a message from Display exactly when the channel is
      enabled, its filter agrees and the message has the level asked of its subsystem. */
  lemma OwnBackendsTake(graph: map<Channel, View>, c: Channel, stack: seq<Channel?>, context: Context, logger: Logger,
                        b: Backend)
    requires c in graph && Closed(graph) && c !in stack && b in c.backends
    requires forall d <- graph :: d.Valid() && d.ViewOf(context, logger) == graph[d]
    ensures (c, b) in Deliveries(graph, c, stack)
            <==> c.enabled && PassesFilter(c, context) && PassesLevel(c, context, logger) && !b.freezed
  {
    var path := ChainExists(graph, c, stack);
    DeliveredOnceAlongChain(graph, c, stack, path, context, logger);
    ChainBegins(graph, c, stack, path);
    assert graph[c] == c.ViewOf(context, logger);
    assert c.displayFilter.Some? ==> c.displayFilter == Some(c.displayFilter.value);
  }

  /** The channel a link leads to: the one linked directly, or the one of that name if there is one. */
  ghost predicate LinksTo(c: Channel, logger: Logger, d: Channel)
    reads c`link, c`linkTo, logger`channels
  {
    c.linkTo == d || (c.linkTo == null && c.link.Some? && c.link.value in logger.channels
                       && logger.channels[c.link.value] == d)
  }

  /** The call and its override can forbid following a link, and an override that removes the flag wins. */
  ghost predicate LinkAllowed(c: Channel, context: Context)
    reads c`disableLink
  {
    context.removeDisableLink || (!c.disableLink && !context.addDisableLink)
  }

  /** A message that a channel lets in goes on to the channel it is linked to exactly when links are
      allowed, and before its own backends; otherwise its own backends are all. */
  lemma LinkIsFollowed(graph: map<Channel, View>, c: Channel, stack: seq<Channel?>, context: Context, logger: Logger,
                       d: Channel)
    requires c in graph && d in graph && Closed(graph) && c !in stack && LinksTo(c, logger, d)
    requires forall e <- graph :: e.ViewOf(context, logger) == graph[e]
    requires c.enabled && PassesFilter(c, context) && PassesLevel(c, context, logger)
    ensures var own := Tagged(c, Unfrozen(c.backends));
      Deliveries(graph, c, stack) == if LinkAllowed(c, context) then Deliveries(graph, d, stack + [c]) + own else own
  {
    assert graph[c] == c.ViewOf(context, logger);
    assert c.displayFilter.Some? ==> c.displayFilter == Some(c.displayFilter.value);
    assert c.linkTo == null ==> logger.channels[c.link.value] == d;
  }

  /** The early test is exact where it can be: for a channel without links and filter that has an
      unfrozen backend, and a message no subsystem level can apply to. */
  lemma EarlyTestIsExact(graph: map<Channel, View>, c: Channel, stack: seq<Channel?>, context: Context, logger: Logger,
                         b: Backend)
    requires c in graph && Closed(graph) && c !in stack && b in c.backends && !b.freezed
    requires forall d <- graph :: d.Valid() && d.ViewOf(context, logger) == graph[d]
    requires !c.linked && c.displayFilter == None && (context.subsystem == 0 || logger.subsystemLevels == map[])
    ensures c.IsOutputActive(context, logger) <==> Deliveries(graph, c, stack) != []
  {
    OwnBackendsTake(graph, c, stack, context, logger, b);
    if !c.IsOutputActive(context, logger) {
      InactiveDeliversNothing(graph, c, stack, context, logger);
    } else {
      assert (c, b) in Deliveries(graph, c, stack);
    }
  }
}
