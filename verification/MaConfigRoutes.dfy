/**
  How often a configuration finalizes a route: once for the block that creates it, and once more for every Reroute
  block that opens it from another route.
 */
module MaConfigRoutes {
  import opened Bytes
  import opened MaConfig
  import opened MaConfigTree

  // ---- Reopened routes ----

  /** The Reroute blocks that are evaluated, name route x and stand in the context of another route. */
  function Reopens(nodes: seq<Node>, route: RouteId, host: HostId, w: World, x: RouteId): nat
    decreases nodes, 0
  {
    if nodes == [] then 0
    else
      var r := EvalNode(nodes[0], route, host, w);
      ReopensNode(nodes[0], route, host, w, x) + if r.ok then Reopens(nodes[1..], route, host, r.world, x) else 0
  }

  function ReopensNode(node: Node, route: RouteId, host: HostId, w: World, x: RouteId): nat
    decreases node
  {
    match node
    case Conditional(cond, first, others) =>
      if cond < 0 then 0
      else
        var r := if cond != 0 then Eval(first, route, host, w) else Result(w, true);
        (if cond != 0 then Reopens(first, route, host, w, x) else 0)
        + if r.ok then ReopensBranches(others, cond == 0, route, host, r.world, x) else 0
    case Block(opener, body) => ReopensBlock(opener, body, route, host, w, x)
    case Includes(files) => ReopensFiles(files, route, host, w, x)
    case _ => 0
  }

  function ReopensBranches(branches: seq<Branch>, taken: bool, route: RouteId, host: HostId, w: World, x: RouteId): nat
    decreases branches
  {
    if branches == [] then 0
    else
      var r := if taken then Eval(branches[0].nodes, route, host, w) else Result(w, true);
      (if taken then Reopens(branches[0].nodes, route, host, w, x) else 0)
      + if r.ok then ReopensBranches(branches[1..], !taken, route, host, r.world, x) else 0
  }

  function ReopensBlock(opener: Opener, body: seq<Node>, route: RouteId, host: HostId, w: World, x: RouteId): nat
    decreases body, 1
  {
    match opener
    case Route(wellFormed) =>
      if wellFormed then Reopens(body, w.nextRoute, host, w.(nextRoute := w.nextRoute + 1), x) else 0
    case Reroute(target) =>
      if !Exists(w, target) then 0
      else Reopens(body, target.value, host, w, x) + if target.value == x && target.value != route then 1 else 0
    case VirtualHost(addresses) =>
      if addresses.Some? then
        Reopens(body, w.nextRoute, w.nextHost, w.(nextRoute := w.nextRoute + 1, nextHost := w.nextHost + 1), x)
      else 0
  }

  function ReopensFiles(files: seq<Source>, route: RouteId, host: HostId, w: World, x: RouteId): nat
    decreases files
  {
    if files == [] then 0
    else
      var r := EvalFile(files[0], route, host, w);
      (if files[0].Text? then Reopens(files[0].nodes, route, host, w.(nextFile := w.nextFile + 1), x) else 0)
      + if r.ok then ReopensFiles(files[1..], route, host, r.world, x) else 0
  }

  // ---- What the events say about a route ----

  /** How often a route is finalized. */
  function Finals(e: seq<Event>, x: RouteId): nat {
    if e == [] then 0 else Finals(e[..|e| - 1], x) + if e[|e| - 1] == Finalized(x) then 1 else 0
  }

  /** Nothing is applied to a route after it has been finalized. */
  predicate ClosedForGood(e: seq<Event>, x: RouteId) {
    forall i, j :: 0 <= i < j < |e| && e[i] == Finalized(x) ==> !(e[j].Applied? && e[j].route == x)
  }

  predicate NoneApplied(e: seq<Event>, x: RouteId) {
    forall i :: 0 <= i < |e| ==> !(e[i].Applied? && e[i].route == x)
  }

  function Since(w: World, v: World): seq<Event> {
    if |w.events| <= |v.events| then v.events[|w.events|..] else []
  }

  predicate Extends(w: World, v: World) {
    w.events <= v.events && w.nextRoute <= v.nextRoute
  }

  function Created(w: World, v: World, x: RouteId): nat {
    if w.nextRoute <= x < v.nextRoute then 1 else 0
  }

  /** What an evaluation against `route` does to route x when k evaluated Reroute blocks open x from another route. */
  predicate Good(w: World, r: Result, route: RouteId, x: RouteId, k: nat) {
    && Extends(w, r.world)
    && (r.ok ==>
          var e := Since(w, r.world);
          && Finals(e, x) == Created(w, r.world, x) + k
          && (k == 0 ==> ClosedForGood(e, x) && (x != route && Created(w, r.world, x) == 0 ==> NoneApplied(e, x))))
  }

  lemma {:induction false} FinalsAppend(a: seq<Event>, b: seq<Event>, x: RouteId)
    ensures Finals(a + b, x) == Finals(a, x) + Finals(b, x)
  {
    if b == [] {
      assert a + b == a;
    } else {
      assert (a + b)[..|a + b| - 1] == a + b[..|b| - 1];
      FinalsAppend(a, b[..|b| - 1], x);
    }
  }

  lemma {:induction false} NotFinalized(e: seq<Event>, x: RouteId)
    requires Finals(e, x) == 0
    ensures Finalized(x) !in e
  {
    if e != [] {
      NotFinalized(e[..|e| - 1], x);
      assert e == e[..|e| - 1] + [e[|e| - 1]];
    }
  }

  lemma ClosedAppend(a: seq<Event>, b: seq<Event>, x: RouteId)
    requires ClosedForGood(a, x) && ClosedForGood(b, x) && (Finalized(x) !in a || NoneApplied(b, x))
    ensures ClosedForGood(a + b, x) && (NoneApplied(a, x) && NoneApplied(b, x) ==> NoneApplied(a + b, x))
  {
  }

  lemma GoodThen(w: World, v: World, r: Result, route: RouteId, x: RouteId, j: nat, k: nat)
    requires Good(w, Result(v, true), route, x, j) && Good(v, r, route, x, k) && route < w.nextRoute
    ensures Good(w, r, route, x, j + k)
  {
    hide ClosedForGood, NoneApplied, Finals;
    var a, b := Since(w, v), Since(v, r.world);
    assert Since(w, r.world) == a + b;
    FinalsAppend(a, b, x);
    if r.ok && j == 0 && k == 0 {
      if Finals(a, x) == 0 {
        NotFinalized(a, x);
      }
      ClosedAppend(a, b, x);
    }
  }

  lemma GoodNothing(w: World, v: World, ok: bool, route: RouteId, x: RouteId)
    requires v.events == w.events && v.nextRoute >= w.nextRoute && (ok ==> v.nextRoute == w.nextRoute)
    ensures Good(w, Result(v, ok), route, x, 0)
  {
  }

  lemma GoodExtends(w: World, r: Result, route: RouteId, x: RouteId, k: nat)
    requires Good(w, r, route, x, k)
    ensures Extends(w, r.world)
  {
  }

  // ---- The parts of a tree ----

  lemma {:induction false} NodesGood(nodes: seq<Node>, route: RouteId, host: HostId, w: World, x: RouteId)
    requires route < w.nextRoute
    ensures Good(w, Eval(nodes, route, host, w), route, x, Reopens(nodes, route, host, w, x))
    decreases nodes, 0
  {
    hide Good;
    GoodNothing(w, w, true, route, x);
    if nodes != [] {
      NodeGood(nodes[0], route, host, w, x);
      var r := EvalNode(nodes[0], route, host, w);
      var k := ReopensNode(nodes[0], route, host, w, x);
      if r.ok {
        GoodExtends(w, r, route, x, k);
        NodesGood(nodes[1..], route, host, r.world, x);
        GoodThen(w, r.world, Eval(nodes[1..], route, host, r.world), route, x, k, Reopens(nodes[1..], route, host, r.world, x));
      }
    }
  }

  lemma {:induction false} NodeGood(node: Node, route: RouteId, host: HostId, w: World, x: RouteId)
    requires route < w.nextRoute
    ensures Good(w, EvalNode(node, route, host, w), route, x, ReopensNode(node, route, host, w, x))
    decreases node, 1
  {
    hide Good;
    match node
    case Empty => GoodNothing(w, w, true, route, x);
    case Directive(name, ok) => DirectiveGood(name, ok, route, host, w, x);
    case Conditional(_, _, _) => ConditionalGood(node, route, host, w, x);
    case Block(opener, body) => BlockGood(opener, body, route, host, w, x);
    case Includes(files) => FilesGood(files, route, host, w, x);
  }

  lemma DirectiveGood(name: string, ok: bool, route: RouteId, host: HostId, w: World, x: RouteId)
    ensures Good(w, EvalNode(Directive(name, ok), route, host, w), route, x, 0)
  {
    if ok {
      var v := w.(events := w.events + [Applied(name, route, host)]);
      assert Since(w, v) == [Applied(name, route, host)];
    }
  }

  lemma {:induction false} ConditionalGood(node: Node, route: RouteId, host: HostId, w: World, x: RouteId)
    requires node.Conditional? && route < w.nextRoute
    ensures Good(w, EvalNode(node, route, host, w), route, x, ReopensNode(node, route, host, w, x))
    decreases node, 0
  {
    hide Good;
    var Conditional(cond, first, others) := node;
    GoodNothing(w, w, cond >= 0, route, x);
    if cond >= 0 {
      if cond != 0 {
        NodesGood(first, route, host, w, x);
      }
      var r := if cond != 0 then Eval(first, route, host, w) else Result(w, true);
      var k := if cond != 0 then Reopens(first, route, host, w, x) else 0;
      if r.ok {
        GoodExtends(w, r, route, x, k);
        BranchesGood(others, cond == 0, route, host, r.world, x);
        GoodThen(w, r.world, EvalBranches(others, cond == 0, route, host, r.world), route, x, k,
                 ReopensBranches(others, cond == 0, route, host, r.world, x));
      }
    }
  }

  lemma {:induction false} BranchesGood(branches: seq<Branch>, taken: bool, route: RouteId, host: HostId, w: World, x: RouteId)
    requires route < w.nextRoute
    ensures Good(w, EvalBranches(branches, taken, route, host, w), route, x, ReopensBranches(branches, taken, route, host, w, x))
    decreases branches
  {
    hide Good;
    GoodNothing(w, w, true, route, x);
    if branches != [] {
      if taken {
        NodesGood(branches[0].nodes, route, host, w, x);
      }
      var r := if taken then Eval(branches[0].nodes, route, host, w) else Result(w, true);
      var k := if taken then Reopens(branches[0].nodes, route, host, w, x) else 0;
      if r.ok {
        GoodExtends(w, r, route, x, k);
        BranchesGood(branches[1..], !taken, route, host, r.world, x);
        GoodThen(w, r.world, EvalBranches(branches[1..], !taken, route, host, r.world), route, x, k,
                 ReopensBranches(branches[1..], !taken, route, host, r.world, x));
      }
    }
  }

  lemma {:induction false} FilesGood(files: seq<Source>, route: RouteId, host: HostId, w: World, x: RouteId)
    requires route < w.nextRoute
    ensures Good(w, EvalFiles(files, route, host, w), route, x, ReopensFiles(files, route, host, w, x))
    decreases files
  {
    hide Good;
    GoodNothing(w, w, true, route, x);
    if files != [] {
      FileGood(files[0], route, host, w, x);
      var r := EvalFile(files[0], route, host, w);
      var k := if files[0].Text? then Reopens(files[0].nodes, route, host, w.(nextFile := w.nextFile + 1), x) else 0;
      if r.ok {
        GoodExtends(w, r, route, x, k);
        FilesGood(files[1..], route, host, r.world, x);
        GoodThen(w, r.world, EvalFiles(files[1..], route, host, r.world), route, x, k,
                 ReopensFiles(files[1..], route, host, r.world, x));
      }
    }
  }

  lemma {:induction false} FileGood(file: Source, route: RouteId, host: HostId, w: World, x: RouteId)
    requires route < w.nextRoute
    ensures Good(w, EvalFile(file, route, host, w), route, x,
                 if file.Text? then Reopens(file.nodes, route, host, w.(nextFile := w.nextFile + 1), x) else 0)
    decreases file
  {
    hide Good;
    match file
    case NoFile => GoodNothing(w, w, false, route, x);
    case Text(nodes) =>
      var v := w.(nextFile := w.nextFile + 1);
      GoodNothing(w, v, true, route, x);
      NodesGood(nodes, route, host, v, x);
      GoodThen(w, v, Eval(nodes, route, host, v), route, x, 0, Reopens(nodes, route, host, v, x));
  }

  lemma {:induction false} BlockGood(opener: Opener, body: seq<Node>, route: RouteId, host: HostId, w: World, x: RouteId)
    requires route < w.nextRoute
    ensures Good(w, EvalBlock(opener, body, route, host, w), route, x, ReopensBlock(opener, body, route, host, w, x))
    decreases body, 1
  {
    hide Good;
    match opener
    case Route(wellFormed) =>
      var v := w.(nextRoute := w.nextRoute + 1);
      GoodNothing(w, v, false, route, x);
      if wellFormed {
        NodesGood(body, w.nextRoute, host, v, x);
        var r := Eval(body, w.nextRoute, host, v);
        CreateGood(w, v, r, route, r.world, x, Reopens(body, w.nextRoute, host, v, x));
      }
    case Reroute(target) =>
      GoodNothing(w, w, false, route, x);
      if Exists(w, target) {
        NodesGood(body, target.value, host, w, x);
        ReopenGood(w, Eval(body, target.value, host, w), route, target.value, x, Reopens(body, target.value, host, w, x));
      }
    case VirtualHost(addresses) =>
      var v := w.(nextRoute := w.nextRoute + 1, nextHost := w.nextHost + 1);
      GoodNothing(w, v, false, route, x);
      if addresses.Some? {
        NodesGood(body, w.nextRoute, w.nextHost, v, x);
        var r := Eval(body, w.nextRoute, w.nextHost, v);
        var (u, ok) := AttachAll(r.world, w.nextHost, addresses.value);
        AttachGood(r.world, w.nextHost, addresses.value);
        CreateGood(w, v, r, route, u, x, Reopens(body, w.nextRoute, w.nextHost, v, x));
      }
  }

  /** Only Attached events. */
  predicate Attachments(e: seq<Event>) {
    forall i :: 0 <= i < |e| ==> e[i].Attached?
  }

  lemma {:induction false} AttachGood(w: World, host: HostId, addresses: seq<bool>)
    ensures var u := AttachAll(w, host, addresses).0;
            w.events <= u.events && Attachments(Since(w, u)) && u.nextRoute == w.nextRoute
    decreases |addresses|
  {
    if addresses != [] && addresses[0] {
      var v := w.(events := w.events + [Attached(host)]);
      AttachGood(v, host, addresses[1..]);
      var u := AttachAll(v, host, addresses[1..]).0;
      assert Since(w, u) == [Attached(host)] + Since(v, u);
    }
  }

  lemma {:induction false} AttachmentsQuiet(a: seq<Event>, x: RouteId)
    requires Attachments(a)
    ensures Finals(a, x) == 0 && NoneApplied(a, x) && ClosedForGood(a, x)
  {
    if a != [] {
      AttachmentsQuiet(a[..|a| - 1], x);
    }
  }

  lemma FinalOne(r: RouteId, x: RouteId)
    ensures Finals([Finalized(r)], x) == (if r == x then 1 else 0) && NoneApplied([Finalized(r)], x) && ClosedForGood([Finalized(r)], x)
  {
    assert [Finalized(r)][..0] == [];
  }

  /** Events of a body, attachments and a finalization, in a row. */
  lemma BodyThenFinal(e: seq<Event>, a: seq<Event>, r: RouteId, x: RouteId)
    requires Attachments(a)
    ensures Finals((e + a) + [Finalized(r)], x) == Finals(e, x) + (if r == x then 1 else 0) && Finals(e + a, x) == Finals(e, x)
    ensures ClosedForGood(e, x) ==> ClosedForGood((e + a) + [Finalized(r)], x) && ClosedForGood(e + a, x)
    ensures NoneApplied(e, x) ==> NoneApplied((e + a) + [Finalized(r)], x) && NoneApplied(e + a, x)
  {
    FinalsAppend(e, a, x);
    FinalsAppend(e + a, [Finalized(r)], x);
    AttachmentsQuiet(a, x);
    FinalOne(r, x);
    hide Finals, ClosedForGood, NoneApplied;
    if ClosedForGood(e, x) {
      ClosedAppend(e, a, x);
      ClosedAppend(e + a, [Finalized(r)], x);
    }
    NoneAppend(e, a, [Finalized(r)], x);
  }

  lemma NoneAppend(e: seq<Event>, a: seq<Event>, f: seq<Event>, x: RouteId)
    requires NoneApplied(a, x) && NoneApplied(f, x)
    ensures NoneApplied(e, x) ==> NoneApplied(e + a, x) && NoneApplied((e + a) + f, x)
  {
  }

  /** A block that creates route n: its body ran against n, hosts were attached, and n is finalized. */
  lemma CreateGood(w: World, v: World, r: Result, route: RouteId, u: World, x: RouteId, k: nat)
    requires v.events == w.events && v.nextRoute == w.nextRoute + 1 && route < w.nextRoute
    requires Good(v, r, w.nextRoute, x, k)
    requires r.world.events <= u.events && Attachments(Since(r.world, u)) && u.nextRoute == r.world.nextRoute
    ensures Good(w, Result(u, false), route, x, k) && (!r.ok ==> Good(w, r, route, x, k))
    ensures r.ok ==> Good(w, Result(Finish(u, w.nextRoute, route), true), route, x, k)
  {
    hide Finals, ClosedForGood, NoneApplied;
    var n := w.nextRoute;
    var e, a := Since(v, r.world), Since(r.world, u);
    assert Since(w, u) == e + a && Since(w, r.world) == e;
    if r.ok {
      assert Since(w, Finish(u, n, route)) == (e + a) + [Finalized(n)];
      BodyThenFinal(e, a, n, x);
    }
  }

  /** A block that opens route t again: its body ran against t, and t is finalized unless the block stands in t itself. */
  lemma ReopenGood(w: World, r: Result, route: RouteId, t: RouteId, x: RouteId, k: nat)
    requires Good(w, r, t, x, k) && route < w.nextRoute && t < w.nextRoute
    ensures !r.ok ==> Good(w, r, route, x, k + if t == x && t != route then 1 else 0)
    ensures r.ok ==> Good(w, Result(Finish(r.world, t, route), true), route, x, k + if t == x && t != route then 1 else 0)
  {
    hide Finals, ClosedForGood, NoneApplied;
    var e := Since(w, r.world);
    if r.ok && t != route {
      assert e + [] == e;
      assert Since(w, Finish(r.world, t, route)) == (e + []) + [Finalized(t)];
      BodyThenFinal(e, [], t, x);
    }
  }

  // ---- The theorem ----

  /**
    An accepted configuration finalizes every route once for its creation, if the configuration creates it, and once
    for each evaluated Reroute that opens it from another route. So a created route is finalized exactly once if and
    only if it is never reopened so, and then nothing is applied to it afterwards.
   */
  lemma FinalizationsAreCounted(m: Machine, nodes: seq<Node>, x: RouteId)
    requires Ready(m, 0) && Current(m).enabled && Current(m).route < m.world.nextRoute
    ensures var o := ParseFile(m, Lines(Write(nodes)));
            var w := m.world.(nextFile := m.world.nextFile + 1);
            var e := Since(m.world, o.m.world);
            var k := Reopens(nodes, Current(m).route, Current(m).host, w, x);
            && Extends(m.world, o.m.world)
            && (o.ok ==> Finals(e, x) == Created(m.world, o.m.world, x) + k)
            && (o.ok && m.world.nextRoute <= x < o.m.world.nextRoute ==> (Finals(e, x) == 1 <==> k == 0) && (k == 0 ==> ClosedForGood(e, x)))
  {
    RunFile(m, 0, Text(nodes));
    var w := m.world.(nextFile := m.world.nextFile + 1);
    NodesGood(nodes, Current(m).route, Current(m).host, w, x);
    hide Eval, Reopens, Finals, ClosedForGood, NoneApplied, Ready;
  }

  /** A route block followed by a Reroute of the same route. */
  function Reopened(n: RouteId): seq<Node> {
    [Block(Route(true), []), Block(Reroute(Some(n)), [Directive("Documents", true)])]
  }

  lemma FirstBlock(outer: RouteId, w: World)
    requires outer < w.nextRoute
    ensures EvalNode(Block(Route(true), []), outer, 0, w)
            == Result(w.(nextRoute := w.nextRoute + 1, events := w.events + [Finalized(w.nextRoute)]), true)
  {
  }

  lemma SecondBlock(n: RouteId, outer: RouteId, w: World)
    requires outer != n && n < w.nextRoute
    ensures EvalNode(Block(Reroute(Some(n)), [Directive("Documents", true)]), outer, 0, w)
            == Result(w.(events := w.events + [Applied("Documents", n, 0)] + [Finalized(n)]), true)
  {
    var d := Directive("Documents", true);
    assert [d][1..] == [];
    assert EvalNode(d, n, 0, w) == Result(w.(events := w.events + [Applied("Documents", n, 0)]), true);
    assert Eval([d], n, 0, w) == EvalNode(d, n, 0, w);
  }

  /** Reopening a route applies directives to it after it was finalized, and finalizes it again. */
  lemma RerouteFinalizesAgain(outer: RouteId, w: World)
    requires outer < w.nextRoute
    ensures var r := Eval(Reopened(w.nextRoute), outer, 0, w);
            r.ok && Since(w, r.world) == [Finalized(w.nextRoute), Applied("Documents", w.nextRoute, 0), Finalized(w.nextRoute)]
  {
    var n := w.nextRoute;
    var v := w.(nextRoute := n + 1, events := w.events + [Finalized(n)]);
    FirstBlock(outer, w);
    SecondBlock(n, outer, v);
    hide EvalNode;
    var rest := Reopened(n)[1..];
    assert rest[1..] == [];
    assert Eval(rest, outer, 0, v) == EvalNode(rest[0], outer, 0, v);
  }
}
