/** Routers nest: prefixes join with dots, middleware is inherited down the tree, and a later
    registration of a name replaces an earlier one.  Registering a router flattens its tree
    into one table, and a call builds the chain of its middleware around its handler. */
module Routing {
  import opened Messages

  type Middleware = nat

  datatype Handler = Handler(id: nat, spec: nat)

  datatype Router = Router(
    prefix: string, handlers: map<string, Handler>, middleware: seq<Middleware>, children: seq<Router>)

  datatype Entry = Entry(handler: Handler, middleware: seq<Middleware>)

  // ----- Where a name is registered -----

  /** A router below this one, as the child to take at each level. */
  type Path = seq<nat>

  predicate IsPath(r: Router, path: Path)
    decreases |path|
  {
    path == [] || (path[0] < |r.children| && IsPath(r.children[path[0]], path[1..]))
  }

  function At(r: Router, path: Path): Router
    requires IsPath(r, path)
    decreases |path|
  {
    if path == [] then r else At(r.children[path[0]], path[1..])
  }

  /** What every name registered in the router at the path starts with. */
  function PrefixAlong(r: Router, prefix: string, path: Path): string
    requires IsPath(r, path)
    decreases |path|
  {
    var own := prefix + r.prefix + ".";
    if path == [] then own else PrefixAlong(r.children[path[0]], own, path[1..])
  }

  /** The middleware from the root down to the router at the path. */
  function MiddlewareAlong(r: Router, path: Path): seq<Middleware>
    requires IsPath(r, path)
    decreases |path|
  {
    r.middleware + if path == [] then [] else MiddlewareAlong(r.children[path[0]], path[1..])
  }

  predicate IsLocal(r: Router, own: string, name: string)
  {
    own <= name && name[|own|..] in r.handlers
  }

  predicate Registers(r: Router, prefix: string, path: Path, name: string)
  {
    IsPath(r, path) && IsLocal(At(r, path), PrefixAlong(r, prefix, path), name)
  }

  /** Registration order: a router before its children, an earlier child before a later one. */
  predicate Later(p: Path, q: Path)
  {
    p != [] && (q == [] || p[0] > q[0] || (p[0] == q[0] && Later(p[1..], q[1..])))
  }

  // ----- Search and table -----

  /** Look for a name in the children, last to first, and then among the local handlers. */
  function Find(r: Router, prefix: string, name: string): Option<Path>
    decreases r, |r.children| + 1
  {
    var own := prefix + r.prefix + ".";
    match FindBelow(r, |r.children|, own, name)
    case Some(path) => Some(path)
    case None => if IsLocal(r, own, name) then Some([]) else None
  }

  function FindBelow(r: Router, n: nat, own: string, name: string): Option<Path>
    requires n <= |r.children|
    decreases r, n
  {
    if n == 0 then None
    else
      match Find(r.children[n - 1], own, name)
      case Some(path) => Some([n - 1] + path)
      case None => FindBelow(r, n - 1, own, name)
  }

  function LocalEntries(r: Router, own: string, names: set<string>, chain: seq<Middleware>): map<string, Entry>
    requires names <= r.handlers.Keys
  {
    map full | full in (set name | name in names :: own + name) :: Entry(r.handlers[full[|own|..]], chain)
  }

  /** The flat table of a tree; where names collide, the later entry wins. */
  function Flat(r: Router, prefix: string, parents: seq<Middleware>): map<string, Entry>
    decreases r, |r.children| + 1
  {
    var own, chain := prefix + r.prefix + ".", parents + r.middleware;
    LocalEntries(r, own, r.handlers.Keys, chain) + FlatBelow(r, |r.children|, own, chain)
  }

  function FlatBelow(r: Router, n: nat, own: string, chain: seq<Middleware>): map<string, Entry>
    requires n <= |r.children|
    decreases r, n
  {
    if n == 0 then map[] else FlatBelow(r, n - 1, own, chain) + Flat(r.children[n - 1], own, chain)
  }

  method FlattenLocal(r: Router, own: string, chain: seq<Middleware>) returns (entries: map<string, Entry>)
    ensures entries == LocalEntries(r, own, r.handlers.Keys, chain)
  {
    hide LocalEntries;
    entries := map[];
    NoLocal(r, own, chain);
    var left, done := r.handlers.Keys, {};
    while left != {}
      invariant left + done == r.handlers.Keys
      invariant entries == LocalEntries(r, own, done, chain)
      decreases left
    {
      var name :| name in left;
      OneMoreLocal(r, own, done, name, chain);
      entries := entries[own + name := Entry(r.handlers[name], chain)];
      left, done := left - {name}, done + {name};
    }
    assert done == r.handlers.Keys;
  }

  /** The recursive flattening, loops and all. */
  method Flatten(r: Router, prefix: string, parents: seq<Middleware>) returns (entries: map<string, Entry>)
    ensures entries == Flat(r, prefix, parents)
    decreases r
  {
    hide LocalEntries;
    var chain, own := parents + r.middleware, prefix + r.prefix + ".";
    entries := FlattenLocal(r, own, chain);
    ghost var local := entries;
    assert local + map[] == local;
    for i := 0 to |r.children|
      invariant entries == local + FlatBelow(r, i, own, chain)
    {
      var below := Flatten(r.children[i], own, chain);
      Merged(local, FlatBelow(r, i, own, chain), below);
      entries := entries + below;
    }
  }

  lemma Merged(a: map<string, Entry>, b: map<string, Entry>, c: map<string, Entry>)
    ensures a + b + c == a + (b + c)
  {
  }

  lemma NoLocal(r: Router, own: string, chain: seq<Middleware>)
    ensures LocalEntries(r, own, {}, chain) == map[]
  {
  }

  lemma OneMoreLocal(r: Router, own: string, names: set<string>, name: string, chain: seq<Middleware>)
    requires names <= r.handlers.Keys && name in r.handlers
    ensures LocalEntries(r, own, names, chain)[own + name := Entry(r.handlers[name], chain)]
         == LocalEntries(r, own, names + {name}, chain)
  {
    assert (own + name)[|own|..] == name;
    var before, after := set n | n in names :: own + n, set n | n in names + {name} :: own + n;
    assert after == before + {own + name};
  }

  lemma LocalMember(r: Router, own: string, name: string, chain: seq<Middleware>)
    ensures name in LocalEntries(r, own, r.handlers.Keys, chain) <==> IsLocal(r, own, name)
  {
    if own <= name {
      assert own + name[|own|..] == name;
    }
    if name in LocalEntries(r, own, r.handlers.Keys, chain) {
      var n :| n in r.handlers && own + n == name;
      assert name[|own|..] == n;
    }
  }

  // ----- The search finds the last registration -----

  /** The search finds a registration of the name whenever there is one, and then the last. */
  lemma {:induction false} FindsTheLast(r: Router, prefix: string, name: string, q: Path)
    ensures var found := Find(r, prefix, name);
      && (found.Some? ==> Registers(r, prefix, found.value, name))
      && (Registers(r, prefix, q, name) ==> found.Some? && (found.value == q || Later(found.value, q)))
    decreases r, |r.children| + 1
  {
    FindsTheLastBelow(r, |r.children|, prefix, name, q);
  }

  lemma {:induction false} FindsTheLastBelow(r: Router, n: nat, prefix: string, name: string, q: Path)
    requires n <= |r.children|
    ensures var found := FindBelow(r, n, prefix + r.prefix + ".", name);
      && (found.Some? ==> found.value != [] && Registers(r, prefix, found.value, name))
      && (q != [] && q[0] < n && Registers(r, prefix, q, name) ==>
            found.Some? && (found.value == q || Later(found.value, q)))
    decreases r, n
  {
    if n > 0 {
      var own := prefix + r.prefix + ".";
      var rest: Path := if q == [] then [] else q[1..];
      FindsTheLast(r.children[n - 1], own, name, rest);
      FindsTheLastBelow(r, n - 1, prefix, name, q);
      var found := Find(r.children[n - 1], own, name);
      if found.Some? {
        assert ([n - 1] + found.value)[1..] == found.value;
      }
      if q != [] && q[0] == n - 1 {
        assert q == [n - 1] + rest;
      }
    }
  }

  /** The entry is that of the local handler registered at the path, with the middleware
      inherited from the root down. */
  predicate IsEntryAt(entry: Entry, r: Router, prefix: string, parents: seq<Middleware>, path: Path, name: string)
  {
    Registers(r, prefix, path, name) &&
    entry == Entry(At(r, path).handlers[name[|PrefixAlong(r, prefix, path)|..]], parents + MiddlewareAlong(r, path))
  }

  /** For every tree and name, the table has the entry the search finds, and none where the
      search finds none. */
  lemma {:induction false} TableIsSearch(r: Router, prefix: string, parents: seq<Middleware>, name: string)
    ensures var found, table := Find(r, prefix, name), Flat(r, prefix, parents);
      && (name in table <==> found.Some?)
      && (found.Some? ==> IsEntryAt(table[name], r, prefix, parents, found.value, name))
    decreases r, |r.children| + 1
  {
    hide IsEntryAt, LocalEntries, IsLocal, FlatBelow, FindBelow;
    var own, chain := prefix + r.prefix + ".", parents + r.middleware;
    LocalMember(r, own, name, chain);
    LocalEntryAt(r, prefix, parents, name);
    TableIsSearchBelow(r, |r.children|, prefix, parents, name);
  }

  lemma LocalEntryAt(r: Router, prefix: string, parents: seq<Middleware>, name: string)
    ensures var local := LocalEntries(r, prefix + r.prefix + ".", r.handlers.Keys, parents + r.middleware);
      name in local ==> IsEntryAt(local[name], r, prefix, parents, [], name)
  {
    LocalMember(r, prefix + r.prefix + ".", name, parents + r.middleware);
    assert r.middleware + [] == r.middleware;
  }

  lemma {:induction false} TableIsSearchBelow(r: Router, n: nat, prefix: string, parents: seq<Middleware>, name: string)
    requires n <= |r.children|
    ensures var own := prefix + r.prefix + ".";
      var found, table := FindBelow(r, n, own, name), FlatBelow(r, n, own, parents + r.middleware);
      && (name in table <==> found.Some?)
      && (found.Some? ==> IsEntryAt(table[name], r, prefix, parents, found.value, name))
    decreases r, n
  {
    hide IsEntryAt, Flat, Find;
    if n > 0 {
      var own, chain := prefix + r.prefix + ".", parents + r.middleware;
      TableIsSearch(r.children[n - 1], own, chain, name);
      TableIsSearchBelow(r, n - 1, prefix, parents, name);
      var found := Find(r.children[n - 1], own, name);
      if found.Some? {
        EntryInChild(Flat(r.children[n - 1], own, chain)[name], r, n - 1, prefix, parents, found.value, name);
      }
    }
  }

  lemma EntryInChild(
      entry: Entry, r: Router, i: nat, prefix: string, parents: seq<Middleware>, path: Path, name: string)
    requires i < |r.children|
    requires IsEntryAt(entry, r.children[i], prefix + r.prefix + ".", parents + r.middleware, path, name)
    ensures IsEntryAt(entry, r, prefix, parents, [i] + path, name)
  {
    assert ([i] + path)[1..] == path;
    var below := MiddlewareAlong(r.children[i], path);
    assert parents + r.middleware + below == parents + (r.middleware + below);
  }

  // ----- The chain of a call -----

  datatype Chain = CallHandler(handler: Handler) | Wrap(middleware: Middleware, next: Chain)

  function Nested(around: seq<Middleware>, handler: Handler): Chain
  {
    if around == [] then CallHandler(handler) else Wrap(around[0], Nested(around[1..], handler))
  }

  datatype Step = Enter(middleware: Middleware) | Leave(middleware: Middleware) | Handle(handler: Handler)

  function Repeat(steps: seq<Step>, times: nat): seq<Step>
  {
    if times == 0 then [] else steps + Repeat(steps, times - 1)
  }

  /** What a call runs through, if each middleware calls on so many times. */
  function Trace(chain: Chain, calls: Middleware -> nat): seq<Step>
  {
    match chain
    case CallHandler(handler) => [Handle(handler)]
    case Wrap(m, next) => [Enter(m)] + Repeat(Trace(next, calls), calls(m)) + [Leave(m)]
  }

  function Enters(around: seq<Middleware>): seq<Step>
  {
    seq(|around|, i requires 0 <= i < |around| => Enter(around[i]))
  }

  /** Left in the opposite order. */
  function Leaves(around: seq<Middleware>): seq<Step>
  {
    seq(|around|, i requires 0 <= i < |around| => Leave(around[|around| - 1 - i]))
  }

  /** The middleware that runs if each calls on at most once: up to the first that does not. */
  function Reached(around: seq<Middleware>, calls: Middleware -> nat): (n: nat)
    ensures n <= |around|
  {
    if around == [] then 0 else if calls(around[0]) == 0 then 1 else 1 + Reached(around[1..], calls)
  }

  predicate AllCallOn(around: seq<Middleware>, calls: Middleware -> nat)
  {
    forall i :: 0 <= i < |around| ==> calls(around[i]) == 1
  }

  lemma OuterSteps(m: Middleware, inner: seq<Middleware>, handled: seq<Step>)
    ensures Enters([m] + inner) + handled + Leaves([m] + inner)
         == [Enter(m)] + (Enters(inner) + handled + Leaves(inner)) + [Leave(m)]
  {
    assert Enters([m] + inner) == [Enter(m)] + Enters(inner);
    assert Leaves([m] + inner) == Leaves(inner) + [Leave(m)];
  }

  lemma RepeatOnce(steps: seq<Step>)
    ensures Repeat(steps, 1) == steps
  {
    assert Repeat(steps, 1) == steps + Repeat(steps, 0);
  }

  /** With middleware that calls on at most once, a call enters it in order up to the first
      that does not call on, calls the handler exactly if each calls on, and leaves the
      middleware in the opposite order. */
  lemma {:induction false} SingleCallOrder(around: seq<Middleware>, handler: Handler, calls: Middleware -> nat)
    requires forall i :: 0 <= i < |around| ==> calls(around[i]) <= 1
    ensures var entered := around[..Reached(around, calls)];
      var handled := if AllCallOn(around, calls) then [Handle(handler)] else [];
      Trace(Nested(around, handler), calls) == Enters(entered) + handled + Leaves(entered)
  {
    hide Repeat, Enters, Leaves;
    if around == [] {
      NoSteps();
    } else {
      var m, later := around[0], around[1..];
      var inner := Trace(Nested(later, handler), calls);
      if calls(m) == 0 {
        NoSteps();
        RepeatNever(inner);
        assert around[..1] == [m] + [];
        OuterSteps(m, [], []);
      } else {
        SingleCallOrder(later, handler, calls);
        RepeatOnce(inner);
        var n := Reached(later, calls);
        assert around[..n + 1] == [m] + later[..n];
        assert AllCallOn(around, calls) <==> AllCallOn(later, calls);
        OuterSteps(m, later[..n], if AllCallOn(later, calls) then [Handle(handler)] else []);
      }
    }
  }

  lemma NoSteps()
    ensures Enters([]) == [] && Leaves([]) == []
  {
  }

  lemma RepeatNever(steps: seq<Step>)
    ensures Repeat(steps, 0) == []
  {
  }

  // ----- The order of any call -----

  /** Run the steps with the first `depth` middleware entered: each step must enter the next
      one, leave the last one entered, or handle the request inside all of them.  Some(d)
      with the depth reached, or None for a step out of order. */
  function DepthAfter(around: seq<Middleware>, handler: Handler, depth: nat, steps: seq<Step>): Option<nat>
    decreases |steps|
  {
    if steps == [] then Some(depth)
    else
      match steps[0]
      case Enter(m) =>
        if depth < |around| && around[depth] == m then DepthAfter(around, handler, depth + 1, steps[1..]) else None
      case Leave(m) =>
        if 0 < depth <= |around| && around[depth - 1] == m then DepthAfter(around, handler, depth - 1, steps[1..])
        else None
      case Handle(h) =>
        if depth == |around| && h == handler then DepthAfter(around, handler, depth, steps[1..]) else None
  }

  function Handlings(steps: seq<Step>): nat
  {
    if steps == [] then 0 else (if steps[0].Handle? then 1 else 0) + Handlings(steps[1..])
  }

  /** How often the handler runs when each middleware calls on so many times. */
  function Product(around: seq<Middleware>, calls: Middleware -> nat): nat
  {
    if around == [] then 1 else calls(around[0]) * Product(around[1..], calls)
  }

  lemma {:induction false} StepsAppend(around: seq<Middleware>, handler: Handler, depth: nat, a: seq<Step>, b: seq<Step>)
    ensures Handlings(a + b) == Handlings(a) + Handlings(b)
    ensures DepthAfter(around, handler, depth, a).Some? ==>
      DepthAfter(around, handler, depth, a + b) == DepthAfter(around, handler, DepthAfter(around, handler, depth, a).value, b)
    decreases |a|
  {
    if a == [] {
      assert a + b == b;
    } else {
      assert (a + b)[0] == a[0] && (a + b)[1..] == a[1..] + b;
      var next := match a[0] case Enter(_) => depth + 1 case Leave(_) => if depth > 0 then depth - 1 else 0 case Handle(_) => depth;
      StepsAppend(around, handler, next, a[1..], b);
    }
  }

  function Concat(parts: seq<seq<Step>>): seq<Step>
  {
    if parts == [] then [] else parts[0] + Concat(parts[1..])
  }

  /** What a call may run through: each time, a middleware calls on as often as it likes. */
  ghost predicate Possible(chain: Chain, steps: seq<Step>)
    decreases chain, 0
  {
    match chain
    case CallHandler(handler) => steps == [Handle(handler)]
    case Wrap(m, next) => exists parts :: Passes(m, next, parts, steps)
  }

  ghost predicate Passes(m: Middleware, next: Chain, parts: seq<seq<Step>>, steps: seq<Step>)
    decreases next, 1
  {
    && steps == [Enter(m)] + Concat(parts) + [Leave(m)]
    && forall i :: 0 <= i < |parts| ==> Possible(next, parts[i])
  }

  lemma {:induction false} ConcatSteps(around: seq<Middleware>, handler: Handler, depth: nat, parts: seq<seq<Step>>)
    requires forall i :: 0 <= i < |parts| ==> DepthAfter(around, handler, depth, parts[i]) == Some(depth)
    ensures DepthAfter(around, handler, depth, Concat(parts)) == Some(depth)
  {
    if parts != [] {
      ConcatSteps(around, handler, depth, parts[1..]);
      StepsAppend(around, handler, depth, parts[0], Concat(parts[1..]));
    }
  }

  /** Between entering a middleware and leaving it again, a call returns to where it was. */
  lemma BracketedSteps(around: seq<Middleware>, handler: Handler, depth: nat, inner: seq<Step>)
    requires depth < |around| && DepthAfter(around, handler, depth + 1, inner) == Some(depth + 1)
    ensures DepthAfter(around, handler, depth, [Enter(around[depth])] + inner + [Leave(around[depth])]) == Some(depth)
  {
    var enter, leave := [Enter(around[depth])], [Leave(around[depth])];
    assert enter[1..] == [] && leave[1..] == [];
    assert DepthAfter(around, handler, depth, enter) == Some(depth + 1);
    assert DepthAfter(around, handler, depth + 1, leave) == Some(depth);
    StepsAppend(around, handler, depth, enter, inner);
    StepsAppend(around, handler, depth, enter + inner, leave);
  }

  lemma {:induction false} OrderFrom(around: seq<Middleware>, handler: Handler, depth: nat, steps: seq<Step>)
    requires depth <= |around| && Possible(Nested(around[depth..], handler), steps)
    ensures DepthAfter(around, handler, depth, steps) == Some(depth)
    decreases |around| - depth
  {
    if depth == |around| {
      assert around[depth..] == [];
      assert [Handle(handler)][1..] == [];
    } else {
      var m, rest := around[depth], around[depth + 1..];
      assert around[depth..][0] == m && around[depth..][1..] == rest;
      var parts :| Passes(m, Nested(rest, handler), parts, steps);
      forall i | 0 <= i < |parts| ensures DepthAfter(around, handler, depth + 1, parts[i]) == Some(depth + 1) {
        OrderFrom(around, handler, depth + 1, parts[i]);
      }
      ConcatSteps(around, handler, depth + 1, parts);
      BracketedSteps(around, handler, depth, Concat(parts));
    }
  }

  /** Whatever the middleware does, calling on not at all, once or many times: each is entered
      only from inside all middleware before it and left before those, and the handler runs
      only inside all of them. */
  lemma CallOrder(around: seq<Middleware>, handler: Handler, steps: seq<Step>)
    requires Possible(Nested(around, handler), steps)
    ensures DepthAfter(around, handler, 0, steps) == Some(0)
  {
    assert around[0..] == around;
    OrderFrom(around, handler, 0, steps);
  }

  lemma {:induction false} RepeatedSteps(chain: Chain, steps: seq<Step>, times: nat) returns (parts: seq<seq<Step>>)
    requires Possible(chain, steps)
    ensures Concat(parts) == Repeat(steps, times) && forall i :: 0 <= i < |parts| ==> Possible(chain, parts[i])
    ensures Handlings(Repeat(steps, times)) == times * Handlings(steps)
  {
    parts := [];
    if times > 0 {
      var fewer := RepeatedSteps(chain, steps, times - 1);
      parts := [steps] + fewer;
      assert parts[1..] == fewer;
      StepsAppend([], Handler(0, 0), 0, steps, Repeat(steps, times - 1));
      assert times * Handlings(steps) == Handlings(steps) + (times - 1) * Handlings(steps);
    }
  }

  /** Calling on a fixed number of times each is one possibility; the handler then runs the
      product of those numbers. */
  lemma {:induction false} HandlerRuns(around: seq<Middleware>, handler: Handler, calls: Middleware -> nat)
    ensures Possible(Nested(around, handler), Trace(Nested(around, handler), calls))
    ensures Handlings(Trace(Nested(around, handler), calls)) == Product(around, calls)
  {
    if around == [] {
      assert [Handle(handler)][1..] == [];
    } else {
      var m, next := around[0], Nested(around[1..], handler);
      HandlerRuns(around[1..], handler, calls);
      var inner := Trace(next, calls);
      var parts := RepeatedSteps(next, inner, calls(m));
      assert Passes(m, next, parts, Trace(Nested(around, handler), calls));
      CountBracketed(m, Repeat(inner, calls(m)));
    }
  }

  lemma CountBracketed(m: Middleware, inner: seq<Step>)
    ensures Handlings([Enter(m)] + inner + [Leave(m)]) == Handlings(inner)
  {
    var enter, leave := [Enter(m)], [Leave(m)];
    assert enter[1..] == [] && leave[1..] == [];
    assert Handlings(enter) == 0 && Handlings(leave) == 0;
    StepsAppend([], Handler(0, 0), 0, enter, inner);
    StepsAppend([], Handler(0, 0), 0, enter + inner, leave);
  }

  // ----- The application's tables -----

  function Part(entries: map<string, Entry>, names: set<string>): map<string, Entry>
  {
    map name | name in names && name in entries :: entries[name]
  }

  lemma WholeAndEmptyPart(table: map<string, Entry>, entries: map<string, Entry>)
    ensures table + Part(entries, {}) == table && Part(entries, entries.Keys) == entries
  {
  }

  lemma OneMoreEntry(table: map<string, Entry>, entries: map<string, Entry>, done: set<string>, name: string)
    requires name in entries
    ensures (table + Part(entries, done))[name := entries[name]] == table + Part(entries, done + {name})
  {
  }

  class App {
    var handlers: map<string, Handler>
    var specs: map<string, nat>
    var routerMiddleware: map<string, seq<Middleware>>
    var middleware: seq<Middleware>

    /** The three tables agree on what is registered. */
    ghost predicate Valid()
      reads this
    {
      && handlers.Keys == specs.Keys == routerMiddleware.Keys
      && forall name :: name in handlers ==> specs[name] == handlers[name].spec
    }

    ghost function Table(): map<string, Entry>
      requires Valid()
      reads this
    {
      map name | name in handlers :: Entry(handlers[name], routerMiddleware[name])
    }

    constructor ()
      ensures Valid() && Table() == map[] && middleware == []
    {
      handlers, specs, routerMiddleware, middleware := map[], map[], map[], [];
    }

    method Register(name: string, entry: Entry)
      requires Valid()
      modifies this`handlers, this`specs, this`routerMiddleware
      ensures Valid() && Table() == old(Table())[name := entry]
    {
      handlers := handlers[name := entry.handler];
      specs := specs[name := entry.handler.spec];
      routerMiddleware := routerMiddleware[name := entry.middleware];
    }

    method IncludeRouter(router: Router)
      requires Valid()
      modifies this`handlers, this`specs, this`routerMiddleware
      ensures Valid() && Table() == old(Table()) + Flat(router, "", [])
    {
      hide Part, Flat, Valid, Table;
      var entries := Flatten(router, "", []);
      var left, done := entries.Keys, {};
      WholeAndEmptyPart(Table(), entries);
      while left != {}
        invariant Valid() && left + done == entries.Keys
        invariant Table() == old(Table()) + Part(entries, done)
        decreases left
      {
        var name :| name in left;
        OneMoreEntry(old(Table()), entries, done, name);
        Register(name, entries[name]);
        left, done := left - {name}, done + {name};
      }
      assert done == entries.Keys;
    }

    /** The chain a request runs through, built from the inside out; None if the method is
        not registered. */
    method BuildChain(name: string) returns (chain: Option<Chain>)
      requires Valid()
      ensures chain == if name !in Table() then None
                       else Some(Nested(middleware + Table()[name].middleware, Table()[name].handler))
    {
      if name !in handlers {
        return None;
      }
      var router, built := routerMiddleware[name], CallHandler(handlers[name]);
      for i := |router| downto 0
        invariant built == Nested(router[i..], handlers[name])
      {
        built := Wrap(router[i], built);
      }
      assert router[0..] == router && [] + router == router;
      for i := |middleware| downto 0
        invariant built == Nested(middleware[i..] + router, handlers[name])
      {
        built := Wrap(middleware[i], built);
        assert (middleware[i..] + router)[1..] == middleware[i + 1..] + router;
      }
      assert middleware[0..] == middleware;
      chain := Some(built);
    }
  }

  /** A routed call runs through the application's middleware, then that of the routers from
      the root down to the handler's own, then the handler, whatever the middleware does. */
  lemma RoutedCallOrder(app: seq<Middleware>, router: Router, name: string, steps: seq<Step>)
    requires name in Flat(router, "", [])
    requires var entry := Flat(router, "", [])[name]; Possible(Nested(app + entry.middleware, entry.handler), steps)
    ensures Find(router, "", name).Some?
    ensures var path, entry := Find(router, "", name).value, Flat(router, "", [])[name];
      && Registers(router, "", path, name)
      && entry.handler == At(router, path).handlers[name[|PrefixAlong(router, "", path)|..]]
      && var around := app + MiddlewareAlong(router, path);
         DepthAfter(around, entry.handler, 0, steps) == Some(0)
  {
    TableIsSearch(router, "", [], name);
    var path, entry := Find(router, "", name).value, Flat(router, "", [])[name];
    assert [] + MiddlewareAlong(router, path) == MiddlewareAlong(router, path);
    CallOrder(app + MiddlewareAlong(router, path), entry.handler, steps);
  }

  /** If the middleware calls on just once, that is each of them in order, the handler, and
      each of them in the opposite order. */
  lemma RoutedSingleCallOrder(app: seq<Middleware>, router: Router, name: string, calls: Middleware -> nat)
    requires Find(router, "", name).Some?
    requires AllCallOn(app + MiddlewareAlong(router, FoundPath(router, name)), calls)
    ensures name in Flat(router, "", [])
    ensures var entry := Flat(router, "", [])[name];
      var around := app + MiddlewareAlong(router, FoundPath(router, name));
      Trace(Nested(app + entry.middleware, entry.handler), calls)
        == Enters(around) + [Handle(entry.handler)] + Leaves(around)
  {
    TableIsSearch(router, "", [], name);
    var path, entry := FoundPath(router, name), Flat(router, "", [])[name];
    var around := app + MiddlewareAlong(router, path);
    assert [] + MiddlewareAlong(router, path) == MiddlewareAlong(router, path);
    SingleCallOrder(around, entry.handler, calls);
    AllReached(around, calls);
    assert around[..|around|] == around;
  }

  function FoundPath(router: Router, name: string): (path: Path)
    requires Find(router, "", name).Some?
    ensures IsPath(router, path)
  {
    FindsTheLast(router, "", name, []);
    Find(router, "", name).value
  }

  lemma {:induction false} AllReached(around: seq<Middleware>, calls: Middleware -> nat)
    requires AllCallOn(around, calls)
    ensures Reached(around, calls) == |around|
  {
    if around != [] {
      AllReached(around[1..], calls);
    }
  }
}
