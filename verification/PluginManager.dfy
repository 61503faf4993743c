/** The plugin registry: handlers of a hook are kept sorted by descending priority, can be switched on and
    off by name, and are run as a chain that passes the context along. */
module PluginManager {
  import opened StableSort

  /** One registration; `id` stands for the function object, `name` for its `__name__`. */
  datatype Handler = Handler(id: nat, name: string, priority: int, enabled: bool)

  datatype Event =
    | Register(hook: string, id: nat, name: string, priority: int)
    | Switch(name: string, on: bool)

  function HigherFirst(): (Handler, Handler) -> bool { (x: Handler, y: Handler) => x.priority >= y.priority }

  function Flip(h: Handler, name: string, on: bool): Handler {
    if h.name == name then h.(enabled := on) else h
  }

  function FlipAll(hs: seq<Handler>, name: string, on: bool): (r: seq<Handler>)
    ensures |r| == |hs| && forall i :: 0 <= i < |hs| ==> r[i] == Flip(hs[i], name, on)
  {
    seq(|hs|, i requires 0 <= i < |hs| => Flip(hs[i], name, on))
  }

  type Hooks = map<string, seq<Handler>>

  function HandlersOf(hooks: Hooks, hook: string): seq<Handler> { if hook in hooks then hooks[hook] else [] }

  function Next(hooks: Hooks, e: Event): Hooks {
    match e
    case Register(hook, id, name, priority) =>
      hooks[hook := Sort(HandlersOf(hooks, hook) + [Handler(id, name, priority, true)], HigherFirst())]
    case Switch(name, on) => map hook | hook in hooks :: FlipAll(hooks[hook], name, on)
  }

  function Replay(evs: seq<Event>): Hooks {
    if evs == [] then map[] else Next(Replay(evs[..|evs| - 1]), evs[|evs| - 1])
  }

  /** All registrations for a hook in the order they were made, with their present flags. */
  function Log(evs: seq<Event>, hook: string): seq<Handler> {
    if evs == [] then []
    else
      var before := Log(evs[..|evs| - 1], hook);
      match evs[|evs| - 1]
      case Register(h, id, name, priority) =>
        if h == hook then before + [Handler(id, name, priority, true)] else before
      case Switch(name, on) => FlipAll(before, name, on)
  }

  lemma PriorityIsPreorder()
    ensures Preorder(HigherFirst())
  {
  }

  lemma {:induction false} FlipInsert(hs: seq<Handler>, h: Handler, name: string, on: bool)
    ensures FlipAll(Insert(hs, h, HigherFirst()), name, on) ==
            Insert(FlipAll(hs, name, on), Flip(h, name, on), HigherFirst())
  {
    var n := |hs| - 1;
    var fs := FlipAll(hs, name, on);
    if hs == [] || HigherFirst()(hs[n], h) {
      assert FlipAll(hs + [h], name, on) == fs + [Flip(h, name, on)];
    } else {
      FlipInsert(hs[..n], h, name, on);
      var r := Insert(hs[..n], h, HigherFirst());
      assert fs[..n] == FlipAll(hs[..n], name, on);
      assert FlipAll(r + [hs[n]], name, on) == FlipAll(r, name, on) + [fs[n]];
    }
  }

  /** Switching handlers does not disturb the order. */
  lemma {:induction false} FlipSort(hs: seq<Handler>, name: string, on: bool)
    ensures FlipAll(Sort(hs, HigherFirst()), name, on) == Sort(FlipAll(hs, name, on), HigherFirst())
  {
    if hs == [] {
    } else {
      var n := |hs| - 1;
      FlipSort(hs[..n], name, on);
      FlipInsert(Sort(hs[..n], HigherFirst()), hs[n], name, on);
      assert FlipAll(hs, name, on)[..n] == FlipAll(hs[..n], name, on);
    }
  }

  /** Appending and re-sorting at each registration, with any switching in between, gives the list that one
      stable descending-priority sort of the whole history gives. */
  lemma {:induction false} ListIsSortedLog(evs: seq<Event>, hook: string)
    ensures HandlersOf(Replay(evs), hook) == Sort(Log(evs, hook), HigherFirst())
  {
    PriorityIsPreorder();
    if evs != [] {
      var front := evs[..|evs| - 1];
      ListIsSortedLog(front, hook);
      var sorted := Sort(Log(front, hook), HigherFirst());
      match evs[|evs| - 1]
      case Register(h, id, name, priority) =>
        var x := Handler(id, name, priority, true);
        SortAppend(sorted, x, HigherFirst());
        SortAppend(Log(front, hook), x, HigherFirst());
        SortSorted(Log(front, hook), HigherFirst());
        SortOfSorted(sorted, HigherFirst());
      case Switch(name, on) =>
        FlipSort(Log(front, hook), name, on);
    }
  }

  lemma ListIsStable(evs: seq<Event>, hook: string)
    ensures IsStableSort(Log(evs, hook), HandlersOf(Replay(evs), hook), HigherFirst())
  {
    PriorityIsPreorder();
    ListIsSortedLog(evs, hook);
    SortIsStable(Log(evs, hook), HigherFirst());
  }

  // ---------------------------------------------------------------------------
  // Running the handlers.
  // ---------------------------------------------------------------------------

  /** What calling a handler does: it returns a new context, it returns something else and leaves the context
      as it may have changed it in place, or it raises. */
  datatype Effect<C> = Returned(context: C) | InPlace(context: C) | Raised

  datatype Result<C> = Passed(context: C) | PluginError(handler: string)

  predicate IsOn(h: Handler) { h.enabled }

  /** The handlers of `hs` one after the other, all of them; the first that raises ends the chain. */
  function Chain<C>(hs: seq<Handler>, act: (nat, C) -> Effect<C>, context: C): Result<C> {
    if hs == [] then Passed(context)
    else match act(hs[0].id, context)
      case Returned(c) => Chain(hs[1..], act, c)
      case InPlace(c) => Chain(hs[1..], act, c)
      case Raised => PluginError(hs[0].name)
  }

  lemma {:induction false} ChainAppend<C>(hs: seq<Handler>, h: Handler, act: (nat, C) -> Effect<C>, context: C)
    ensures Chain(hs + [h], act, context) ==
            match Chain(hs, act, context)
            case Passed(c) => Chain([h], act, c)
            case error => error
  {
    if hs == [] {
      assert hs + [h] == [h];
    } else {
      assert (hs + [h])[1..] == hs[1..] + [h];
      match act(hs[0].id, context)
      case Returned(c) => ChainAppend(hs[1..], h, act, c);
      case InPlace(c) => ChainAppend(hs[1..], h, act, c);
      case Raised =>
    }
  }

  /** Only the functions of enabled handlers matter to a run. */
  lemma {:induction false} DisabledDoNotMatter<C(!new)>(hs: seq<Handler>, a: (nat, C) -> Effect<C>, b: (nat, C) -> Effect<C>, context: C)
    requires forall h, c :: h in hs && h.enabled ==> a(h.id, c) == b(h.id, c)
    ensures Chain(Filter(hs, IsOn), a, context) == Chain(Filter(hs, IsOn), b, context)
  {
    if hs == [] {
    } else {
      var n := |hs| - 1;
      DisabledDoNotMatter(hs[..n], a, b, context);
      if hs[n].enabled {
        assert hs[n] in hs;
        ChainAppend(Filter(hs[..n], IsOn), hs[n], a, context);
        ChainAppend(Filter(hs[..n], IsOn), hs[n], b, context);
      }
    }
  }

  /** After `disable(name)` a run does what it would do if the functions of that name were not there: their
      behaviour has no influence on the result. */
  lemma DisableSilences<C(!new)>(hooks: Hooks, hook: string, name: string, a: (nat, C) -> Effect<C>, b: (nat, C) -> Effect<C>, context: C)
    requires forall h, c :: h in HandlersOf(hooks, hook) && h.name != name ==> a(h.id, c) == b(h.id, c)
    ensures var hs := HandlersOf(Next(hooks, Switch(name, false)), hook);
            Chain(Filter(hs, IsOn), a, context) == Chain(Filter(hs, IsOn), b, context)
  {
    var hs := HandlersOf(Next(hooks, Switch(name, false)), hook);
    var was := HandlersOf(hooks, hook);
    forall h, c | h in hs && h.enabled
      ensures a(h.id, c) == b(h.id, c)
    {
      var i :| 0 <= i < |hs| && hs[i] == h;
      assert h == Flip(was[i], name, false) && was[i] in was;
    }
    DisabledDoNotMatter(hs, a, b, context);
  }

  /** Higher priorities come first. */
  ghost predicate Descending(hs: seq<Handler>) { forall i, j :: 0 <= i < j < |hs| ==> hs[i].priority >= hs[j].priority }

  lemma SortedList(hs: seq<Handler>, h: Handler)
    ensures Descending(Sort(hs + [h], HigherFirst()))
    ensures multiset(Sort(hs + [h], HigherFirst())) == multiset(hs) + multiset{h}
  {
    PriorityIsPreorder();
    SortSorted(hs + [h], HigherFirst());
    SortMultiset(hs + [h], HigherFirst());
  }

  /** The handlers of this name are on, or off, and nothing else is changed. */
  ghost predicate Switched(before: seq<Handler>, after: seq<Handler>, name: string, on: bool) {
    && |after| == |before|
    && forall i :: 0 <= i < |after| ==>
         after[i] == if before[i].name == name then before[i].(enabled := on) else before[i]
  }

  // The chain as a sequence of contexts.

  /** `cs` is what the first |cs| - 1 handlers make of the context, one after the other: what a handler returns is passed
      on, otherwise what it left in place. */
  ghost predicate Contexts<C>(hs: seq<Handler>, act: (nat, C) -> Effect<C>, cs: seq<C>) {
    && 1 <= |cs| <= |hs| + 1
    && forall k :: 0 <= k < |cs| - 1 ==> PassesOn(act(hs[k].id, cs[k]), cs, k + 1)
  }

  ghost predicate PassesOn<C>(e: Effect<C>, cs: seq<C>, next: nat)
    requires next < |cs|
  {
    match e
    case Returned(c) => c == cs[next]
    case InPlace(c) => c == cs[next]
    case Raised => false
  }

  /** A run passes through a sequence of contexts from the first to the last handler, and its result is the last of them;
      or up to the first handler that raises, whose name it reports. */
  lemma {:induction false} ChainThroughContexts<C>(hs: seq<Handler>, act: (nat, C) -> Effect<C>, context: C)
    returns (cs: seq<C>)
    ensures Contexts(hs, act, cs) && cs[0] == context
    ensures var last := |cs| - 1;
            match Chain(hs, act, context)
            case Passed(c) => last == |hs| && c == cs[last]
            case PluginError(handler) =>
              last < |hs| && act(hs[last].id, cs[last]).Raised? && handler == hs[last].name
  {
    if hs == [] {
      cs := [context];
    } else {
      match act(hs[0].id, context)
      case Returned(c) =>
        var rest := ChainThroughContexts(hs[1..], act, c);
        cs := [context] + rest;
        ContextsShift(hs, act, context, rest);
      case InPlace(c) =>
        var rest := ChainThroughContexts(hs[1..], act, c);
        cs := [context] + rest;
        ContextsShift(hs, act, context, rest);
      case Raised =>
        cs := [context];
    }
  }

  lemma ContextsShift<C>(hs: seq<Handler>, act: (nat, C) -> Effect<C>, context: C, rest: seq<C>)
    requires hs != [] && Contexts(hs[1..], act, rest)
    requires act(hs[0].id, context) == Returned(rest[0]) || act(hs[0].id, context) == InPlace(rest[0])
    ensures Contexts(hs, act, [context] + rest)
  {
    var cs := [context] + rest;
    forall k | 0 <= k < |cs| - 1
      ensures PassesOn(act(hs[k].id, cs[k]), cs, k + 1)
    {
      if k > 0 {
        assert hs[k] == hs[1..][k - 1] && cs[k] == rest[k - 1];
        var next := k - 1 + 1;
        assert PassesOn(act(hs[1..][k - 1].id, rest[k - 1]), rest, next);
      }
    }
  }

  class Manager {
    var hooks: Hooks

    method Register(hook: string, id: nat, name: string, priority: int)
      modifies this
      ensures hooks == Next(old(hooks), Event.Register(hook, id, name, priority))
      ensures hook in hooks && Descending(hooks[hook])
      ensures multiset(hooks[hook]) == multiset(HandlersOf(old(hooks), hook)) + multiset{Handler(id, name, priority, true)}
      ensures hooks - {hook} == old(hooks) - {hook}
    {
      SortedList(HandlersOf(hooks, hook), Handler(id, name, priority, true));
      if hook !in hooks {
        hooks := hooks[hook := []];
      }
      hooks := hooks[hook := hooks[hook] + [Handler(id, name, priority, true)]];
      hooks := hooks[hook := Sort(hooks[hook], HigherFirst())];
    }

    method Switch(name: string, on: bool)
      modifies this
      ensures hooks == Next(old(hooks), Event.Switch(name, on))
      ensures hooks.Keys == old(hooks).Keys
      ensures forall hook :: hook in hooks ==> Switched(old(hooks)[hook], hooks[hook], name, on)
    {
      var todo := hooks.Keys;
      while todo != {}
        invariant hooks.Keys == old(hooks).Keys && todo <= hooks.Keys
        invariant forall h :: h in hooks ==>
                    hooks[h] == if h in todo then old(hooks)[h] else FlipAll(old(hooks)[h], name, on)
        decreases |todo|
      {
        var hook :| hook in todo;
        var list := FlipInPlace(hooks[hook], name, on);
        hooks := hooks[hook := list];
        todo := todo - {hook};
      }
    }

    /** The inner loop of enabling and disabling. */
    method FlipInPlace(before: seq<Handler>, name: string, on: bool) returns (after: seq<Handler>)
      ensures after == FlipAll(before, name, on)
    {
      after := before;
      for i := 0 to |before|
        invariant |after| == |before|
        invariant forall k :: 0 <= k < |before| ==> after[k] == if k < i then Flip(before[k], name, on) else before[k]
      {
        if after[i].name == name {
          after := after[i := after[i].(enabled := on)];
        }
      }
    }

    /** The result is the fold of the enabled handlers in list order. */
    method RunHooks<C(!new)>(hook: string, act: (nat, C) -> Effect<C>, context: C) returns (r: Result<C>)
      ensures r == Chain(Filter(HandlersOf(hooks, hook), IsOn), act, context)
    {
      var hs := HandlersOf(hooks, hook);
      var c := context;
      for i := 0 to |hs|
        invariant Chain(Filter(hs[..i], IsOn), act, context) == Passed(c)
      {
        assert hs[..i + 1][..i] == hs[..i];
        if hs[i].enabled {
          ChainAppend(Filter(hs[..i], IsOn), hs[i], act, context);
          match act(hs[i].id, c) {
            case Returned(next) => c := next;
            case InPlace(next) => c := next;
            case Raised =>
              RaisedEarly(hs, i, act, context);
              return PluginError(hs[i].name);
          }
        }
      }
      assert hs[..|hs|] == hs;
      return Passed(c);
    }
  }

  /** Once the chain has failed, later handlers change nothing. */
  lemma {:induction false} RaisedEarly<C(!new)>(hs: seq<Handler>, i: nat, act: (nat, C) -> Effect<C>, context: C)
    requires i < |hs| && Chain(Filter(hs[..i + 1], IsOn), act, context).PluginError?
    ensures Chain(Filter(hs, IsOn), act, context) == Chain(Filter(hs[..i + 1], IsOn), act, context)
  {
    var n := |hs| - 1;
    if i == n {
      assert hs[..i + 1] == hs;
    } else {
      assert hs[..n][..i + 1] == hs[..i + 1];
      RaisedEarly(hs[..n], i, act, context);
      ChainAppend(Filter(hs[..n], IsOn), hs[n], act, context);
    }
  }
}
