/** Every step of the app pool keeps its invariant, so every run does. */
module FastPoolRuns {
  import opened FastPool
  import opened FastPoolInvariant

  // ---- Steps of one client ----

  /** A client without a request changes to another phase without one. */
  lemma PhaseLinked(p: Pool, c: ClientId, cl: Client)
    requires Linked(p) && (c in p.clients ==> !p.clients[c].phase.Registered?)
    requires !cl.phase.Registered? && (cl.phase.Connecting? ==> cl.phase.app in p.table)
    requires c in p.clients ==> cl.sent == p.clients[c].sent
    ensures Linked(SetClient(p, c, cl))
  {
    var q := SetClient(p, c, cl);
    forall a, r | a in q.table && r in q.table[a].requests ensures RequestLinked(q, a, r) {
      assert RequestLinked(p, a, r);
    }
    forall d | d in q.clients ensures ClientLinked(q, d) {
      assert d != c ==> ClientLinked(p, d);
    }
    forall r | r in q.reqs ensures Recorded(q, r) {
      assert Recorded(p, r);
    }
  }

  lemma SameTableLater(p: Pool, q: Pool)
    requires q.table == p.table && q.reqs == p.reqs
    ensures Later(p, q)
  {
  }

  lemma ClientChange(p: Pool, c: ClientId, cl: Client)
    requires ClientsOk(p) && ClientOk(p, cl)
    ensures ClientsOk(SetClient(p, c, cl))
  {
    hide ClientsOk, ClientOk, Later;
    var q := SetClient(p, c, cl);
    SameTableLater(p, q);
    LaterSends(p, q, cl);
    OneClient(p, q, c, cl);
  }

  lemma NoConnectors(p: Pool, c: ClientId, cl: Client)
    requires Counted(p, {}) && c !in p.clients && !cl.phase.Connecting?
    ensures Counted(SetClient(p, c, cl), {})
  {
    forall a | a in p.table ensures Connectors(p.clients[c := cl], a) == Connectors(p.clients, a) {
      ConnectorsAfter(p.clients, c, cl, a);
    }
  }

  lemma OpenOk(cfg: Config, p: Pool, c: ClientId, safe: bool)
    requires Inv(cfg, p) && c !in p.clients
    ensures Inv(cfg, SetClient(p, c, NewClient(safe)))
  {
    hide Linked, Counted, ClientsOk;
    var cl := NewClient(safe);
    PhaseLinked(p, c, cl);
    NoConnectors(p, c, cl);
    ClientChange(p, c, cl);
    assert Reusable(SetClient(p, c, cl)) == Reusable(p);
  }

  lemma GiveUpOk(cfg: Config, p: Pool, c: ClientId)
    requires Inv(cfg, p) && SelectingClient(p, c)
    ensures Inv(cfg, SetClient(p, c, p.clients[c].(phase := Finished)))
  {
    hide Linked, Counted;
    var cl := p.clients[c].(phase := Finished);
    PhaseLinked(p, c, cl);
    KeepsConnecting(p, c, cl, {});
    assert ClientOk(p, p.clients[c]);
    ClientChange(p, c, cl);
    assert Reusable(SetClient(p, c, cl)) == Reusable(p);
  }

  // ---- Selecting an app ----

  lemma AcquireQuiet(p: Pool, a: AppId)
    requires a in p.table
    ensures Quiet(p, Acquire(p, a)) && (Counted(p, {}) ==> Counted(Acquire(p, a), {a}))
  {
  }

  /** The client's part of a selection: from a spare use to a connecting client. */
  lemma ConnectOk(cfg: Config, p: Pool, c: ClientId, cl: Client)
    requires ListsOk(cfg, p) && WithinMax(cfg, p) && Linked(p) && ExitsTold(p) && ClientsOk(p) && !p.killedBusy
    requires SelectingClient(p, c) && cl.phase.Connecting? && cl.phase.app in p.table && !p.table[cl.phase.app].destroy
    requires cl == p.clients[c].(phase := Connecting(cl.phase.app, p.clients[c].phase.retry, p.clients[c].phase.second),
                                 acquired := p.clients[c].acquired + 1)
    requires Counted(p, {cl.phase.app})
    ensures Inv(cfg, SetClient(p, c, cl))
  {
    hide Linked, Counted;
    PhaseLinked(p, c, cl);
    StartsConnecting(p, c, cl);
    assert ClientOk(p, p.clients[c]);
    assert ClientOk(p, cl);
    ClientChange(p, c, cl);
    assert Reusable(SetClient(p, c, cl)) == Reusable(p);
  }

  lemma PickOk(cfg: Config, p: Pool, c: ClientId, a: AppId)
    requires Inv(cfg, p) && SelectingClient(p, c) && a in p.table && cfg.multiplex >= 1 && !p.table[a].destroy
    requires (a in p.active && p.table[a].inUse < cfg.multiplex)
             || a in Reusable(p)
             || (a !in p.active && a !in p.idle && Reusable(p) == {} && |p.active| < cfg.maxApps)
    ensures Inv(cfg, Pick(p, c, a))
  {
    hide ListsOk, WithinMax, Counted, Linked, ExitsTold, ClientsOk;
    var q := Acquire(p, a);
    AcquiredLists(cfg, p, a);
    AcquireQuiet(p, a);
    hide TableGrows, ClientsGrow, ReqsGrow, ReapsGrow;
    QuietLinked(p, q);
    QuietReaps(p, q);
    QuietClients(p, q);
    var cl := p.clients[c];
    ConnectOk(cfg, q, c, cl.(phase := Connecting(a, cl.phase.retry, cl.phase.second), acquired := cl.acquired + 1));
  }

  lemma StartLinked(p: Pool, a: AppId, app: App)
    requires Linked(p) && ExitsTold(p) && a !in p.table && app.requests == {} && !app.reaped && !app.exited
    ensures Linked(SetApp(p, a, app)) && ExitsTold(SetApp(p, a, app)) && Connectors(p.clients, a) == {}
    ensures Later(p, SetApp(p, a, app))
  {
    var q := SetApp(p, a, app);
    forall b, r | b in q.table && r in q.table[b].requests ensures RequestLinked(q, b, r) {
      assert RequestLinked(p, b, r);
    }
    forall c | c in q.clients ensures ClientLinked(q, c) {
      assert ClientLinked(p, c);
    }
    forall r | r in q.reqs ensures Recorded(q, r) {
      assert Recorded(p, r);
    }
    forall c | c in p.clients ensures !ConnectsTo(p.clients[c], a) {
      assert ClientLinked(p, c);
    }
  }

  lemma AllClientsLater(p: Pool, q: Pool)
    requires ClientsOk(p) && Later(p, q) && q.clients == p.clients
    ensures ClientsOk(q)
  {
    hide ClientOk, Later;
    forall c | c in q.clients ensures ClientOk(q, q.clients[c]) {
      LaterSends(p, q, p.clients[c]);
    }
  }

  lemma StartOk(cfg: Config, p: Pool, a: AppId, app: App)
    requires Inv(cfg, p) && a !in p.table && app.requests == {} && !app.reaped && !app.exited && app.inUse == 0
    ensures Inv(cfg, SetApp(p, a, app)) && Reusable(SetApp(p, a, app)) == Reusable(p)
  {
    hide Linked, ExitsTold, ClientsOk, Later;
    var q := SetApp(p, a, app);
    StartLinked(p, a, app);
    AllClientsLater(p, q);
    assert Reusable(q) == Reusable(p);
    assert q.table[a].inUse == |q.table[a].requests| + |Connectors(q.clients, a)|;
  }

  // ---- Registering ----

  lemma RegisterLater(p: Pool, c: ClientId, r: ReqId)
    requires ConnectingClient(p, c) && r !in p.reqs
    ensures Later(p, Register(p, c, r))
  {
  }

  lemma RegisterLinked(p: Pool, c: ClientId, r: ReqId)
    requires Linked(p) && ConnectingClient(p, c) && r !in p.reqs
    ensures Linked(Register(p, c, r))
  {
    var q := Register(p, c, r);
    var a := p.clients[c].phase.app;
    forall b, s | b in q.table && s in q.table[b].requests ensures RequestLinked(q, b, s) {
      if s != r {
        assert s in p.table[b].requests;
        assert RequestLinked(p, b, s);
      } else {
        assert b == a || RequestLinked(p, b, s);
      }
    }
    forall d | d in q.clients ensures ClientLinked(q, d) {
      assert ClientLinked(p, d);
    }
    forall s | s in q.reqs ensures Recorded(q, s) {
      assert s != r ==> Recorded(p, s);
    }
  }

  lemma FreshRequest(p: Pool, a: AppId, r: ReqId)
    requires Linked(p) && a in p.table && r !in p.reqs
    ensures r !in p.table[a].requests
  {
    forall s | s in p.table[a].requests ensures s in p.reqs {
      assert RequestLinked(p, a, s);
    }
  }

  lemma RegisterCounted(p: Pool, c: ClientId, r: ReqId)
    requires Counted(p, {}) && Linked(p) && ConnectingClient(p, c) && r !in p.reqs
    ensures Counted(Register(p, c, r), {})
  {
    hide Connectors, Linked;
    var cl := p.clients[c];
    var a := cl.phase.app;
    FreshRequest(p, a, r);
    StopsConnecting(p, c, cl.(phase := Registered(r), sent := cl.sent + [r]));
    var q := Register(p, c, r);
    assert |q.table[a].requests| == |p.table[a].requests| + 1;
  }

  lemma RegisterClient(p: Pool, c: ClientId, r: ReqId)
    requires ClientsOk(p) && Linked(p) && ConnectingClient(p, c) && r !in p.reqs
    ensures ClientOk(Register(p, c, r), Register(p, c, r).clients[c])
  {
    hide Linked;
    var q := Register(p, c, r);
    assert ClientOk(p, p.clients[c]);
    RegisterLater(p, c, r);
    var cl := p.clients[c];
    if cl.phase.second {
      assert Retired(q, cl.sent[0]);
    }
  }

  lemma RegisterLists(cfg: Config, p: Pool, c: ClientId, r: ReqId)
    requires ListsOk(cfg, p) && WithinMax(cfg, p) && ConnectingClient(p, c)
    ensures ListsOk(cfg, Register(p, c, r)) && WithinMax(cfg, Register(p, c, r))
  {
    assert Reusable(Register(p, c, r)) == Reusable(p);
  }

  lemma RegisterOk(cfg: Config, p: Pool, c: ClientId, r: ReqId)
    requires Inv(cfg, p) && ConnectingClient(p, c) && r !in p.reqs && !HasExited(p.table[p.clients[c].phase.app])
    ensures Inv(cfg, Register(p, c, r))
  {
    hide ListsOk, WithinMax, Counted, Linked, ClientsOk, Later, ClientOk;
    RegisterLists(cfg, p, c, r);
    RegisterCounted(p, c, r);
    RegisterLinked(p, c, r);
    RegisterClient(p, c, r);
    RegisterLater(p, c, r);
    OneClient(p, Register(p, c, r), c, Register(p, c, r).clients[c]);
  }

  // ---- Leaving an app ----

  lemma MarkQuiet(p: Pool, a: AppId)
    requires a in p.table
    ensures Quiet(p, MarkDestroy(p, a)) && ListsShrink(p, MarkDestroy(p, a))
  {
  }

  lemma MarkOk(cfg: Config, p: Pool, a: AppId, extra: set<AppId>)
    requires ListsOk(cfg, p) && WithinMax(cfg, p) && Counted(p, extra) && Linked(p) && ExitsTold(p) && ClientsOk(p)
    requires a in p.table
    ensures var q := MarkDestroy(p, a);
            ListsOk(cfg, q) && WithinMax(cfg, q) && Counted(q, extra) && Linked(q) && ExitsTold(q) && ClientsOk(q)
  {
    hide ListsOk, WithinMax, Counted, Linked, ExitsTold, ClientsOk;
    var q := MarkDestroy(p, a);
    MarkQuiet(p, a);
    hide TableGrows, ClientsGrow, ReqsGrow, ReapsGrow;
    ShrunkLists(cfg, p, q);
    QuietLinked(p, q);
    QuietReaps(p, q);
    QuietCounted(p, q, extra);
    QuietClients(p, q);
  }

  lemma FailedClient(p: Pool, cl: Client, app: App)
    requires cl.phase.Connecting?
    ensures var cl' := AfterFailure(cl, app);
            && !cl'.phase.Connecting? && !cl'.phase.Registered? && cl'.sent == cl.sent
            && (ClientOk(p, cl) ==> ClientOk(p, cl'))
  {
  }

  lemma ConnectFailsOk(cfg: Config, p: Pool, c: ClientId)
    requires Inv(cfg, p) && ConnectingClient(p, c)
    ensures Inv(cfg, ConnectFails(cfg, p, c))
  {
    hide WithinMax, Counted, Linked;
    var cl := p.clients[c];
    var a := cl.phase.app;
    var exited := HasExited(p.table[a]);
    var cl' := AfterFailure(cl, p.table[a]);
    FailedClient(p, cl, p.table[a]);
    hide AfterFailure;
    var q := SetClient(p, c, cl');
    StopsConnecting(p, c, cl');
    PhaseLinked(p, c, cl');
    ClientChange(p, c, cl');
    assert Reusable(q) == Reusable(p);
    SameWithinMax(cfg, p, q);
    if exited {
      MarkOk(cfg, q, a, {a});
    }
    ReleaseOk(cfg, if exited then MarkDestroy(q, a) else q, a);
  }

  lemma SameWithinMax(cfg: Config, p: Pool, q: Pool)
    requires WithinMax(cfg, p) && q.active == p.active && Reusable(q) == Reusable(p)
    ensures WithinMax(cfg, q)
  {
  }

  lemma DropLinked(p: Pool, r: ReqId, cl: Client)
    requires Linked(p) && IsRegistered(p, r) && !cl.phase.Registered? && !cl.phase.Connecting?
    requires p.reqs[r].client in p.clients && cl.sent == p.clients[p.reqs[r].client].sent
    ensures Linked(Drop(p, r, cl)) && Later(p, Drop(p, r, cl))
    ensures p.clients[p.reqs[r].client].phase == Registered(r)
  {
    var q := Drop(p, r, cl);
    assert RequestLinked(p, p.reqs[r].app, r);
    forall b, s | b in q.table && s in q.table[b].requests ensures RequestLinked(q, b, s) {
      assert RequestLinked(p, b, s);
    }
    forall d | d in q.clients ensures ClientLinked(q, d) {
      if d != p.reqs[r].client {
        assert ClientLinked(p, d);
      }
    }
    forall s | s in q.reqs ensures Recorded(q, s) {
      assert Recorded(p, s);
    }
  }

  lemma DropCounted(p: Pool, r: ReqId, cl: Client)
    requires Counted(p, {}) && IsRegistered(p, r) && p.reqs[r].client in p.clients
    requires p.clients[p.reqs[r].client].phase.Registered? && !cl.phase.Connecting?
    ensures Counted(Drop(p, r, cl), {p.reqs[r].app})
  {
    hide Connectors;
    KeepsConnecting(p, p.reqs[r].client, cl, {});
    var a := p.reqs[r].app;
    assert |p.table[a].requests - {r}| == |p.table[a].requests| - 1;
  }

  lemma DropLists(cfg: Config, p: Pool, r: ReqId, cl: Client)
    requires ListsOk(cfg, p) && WithinMax(cfg, p) && ExitsTold(p) && IsRegistered(p, r)
    ensures var q := Drop(p, r, cl);
            ListsOk(cfg, q) && WithinMax(cfg, q) && ExitsTold(q) && q.killedBusy == p.killedBusy
  {
    assert Reusable(Drop(p, r, cl)) == Reusable(p);
  }

  /** A request leaves its app and the app is released. */
  lemma DropOk(cfg: Config, p: Pool, r: ReqId, cl: Client)
    requires Inv(cfg, p) && IsRegistered(p, r) && !cl.phase.Registered? && !cl.phase.Connecting?
    requires p.reqs[r].client in p.clients && cl.sent == p.clients[p.reqs[r].client].sent
    requires ClientOk(Drop(p, r, cl), cl)
    ensures Inv(cfg, Release(cfg, Drop(p, r, cl), p.reqs[r].app))
  {
    hide ListsOk, WithinMax, Counted, Linked, ExitsTold, ClientsOk, Later, ClientOk;
    DropLinked(p, r, cl);
    DropCounted(p, r, cl);
    DropLists(cfg, p, r, cl);
    OneClient(p, Drop(p, r, cl), p.reqs[r].client, cl);
    ReleaseOk(cfg, Drop(p, r, cl), p.reqs[r].app);
  }

  lemma CloseOk(cfg: Config, p: Pool, r: ReqId)
    requires Inv(cfg, p) && IsRegistered(p, r) && p.reqs[r].client in p.clients
    ensures Inv(cfg, Close(cfg, p, r))
  {
    hide ListsOk, WithinMax, Counted, Linked, ExitsTold;
    var cl := p.clients[p.reqs[r].client];
    var cl' := cl.(phase := Finished, released := cl.released + 1);
    DropLinked(p, r, cl');
    assert ClientOk(p, cl);
    assert ClientOk(p, cl');
    LaterSends(p, Drop(p, r, cl'), cl');
    DropOk(cfg, p, r, cl');
  }

  lemma RetryOk(cfg: Config, p: Pool, r: ReqId)
    requires Inv(cfg, p) && IsRegistered(p, r) && p.reqs[r].client in p.clients && MayRetry(p, r)
    ensures Inv(cfg, Retry(cfg, p, r))
  {
    hide ListsOk, WithinMax, Counted, Linked, ExitsTold;
    var cl := p.clients[p.reqs[r].client];
    var cl' := cl.(phase := Selecting(0, true), released := cl.released + 1, silent := !cl.responded);
    var a := p.reqs[r].app;
    var q := MarkDestroy(p, a);
    MarkOk(cfg, p, a, {});
    DropLinked(q, r, cl');
    assert ClientOk(q, cl);
    var q' := Drop(q, r, cl');
    assert Retired(q', r);
    assert ClientOk(q', cl');
    DropOk(cfg, q, r, cl');
  }

  // ---- Steps of the process and of the environment ----

  lemma ReapOk(cfg: Config, p: Pool, a: AppId, status: bool)
    requires Inv(cfg, p) && a in p.table
    ensures Inv(cfg, Reap(p, a, status))
  {
    hide ListsOk, WithinMax, Counted, Linked, ClientsOk, ExitsTold;
    QuietStep(cfg, p, Reap(p, a, status));
  }

  lemma IdleHasNoRequests(cfg: Config, p: Pool, a: AppId)
    requires ListsOk(cfg, p) && Counted(p, {}) && a in p.idle && a in p.table
    ensures p.table[a].requests == {}
  {
    hide Connectors;
    assert p.table[a].inUse == 0;
  }

  lemma KillQuiet(p: Pool, a: AppId)
    requires a in p.table
    ensures Quiet(p, Kill(p, a)) && ListsShrink(p, Kill(p, a))
  {
    KillEffect(p, a);
    hide Kill;
  }

  lemma PruneOk(cfg: Config, p: Pool, a: AppId)
    requires Inv(cfg, p) && a in p.idle && a in p.table
    ensures Inv(cfg, Kill(p, a))
  {
    IdleHasNoRequests(cfg, p, a);
    hide ListsOk, WithinMax, Counted, Linked, ClientsOk, ExitsTold;
    KillEffect(p, a);
    KillQuiet(p, a);
    hide Kill, Quiet, ListsShrink;
    QuietStep(cfg, p, Kill(p, a));
  }

  lemma ShutdownOk(cfg: Config, p: Pool)
    requires Inv(cfg, p)
    ensures Inv(cfg, KillAll(p))
  {
    hide ListsOk, WithinMax, Counted, Linked, ClientsOk, ExitsTold;
    QuietStep(cfg, p, KillAll(p));
  }

  lemma WriteFailsOk(cfg: Config, p: Pool, a: AppId)
    requires Inv(cfg, p) && a in p.table
    ensures Inv(cfg, WriteFails(p, a)) && Inv(cfg, MarkDestroy(p, a))
  {
    hide ListsOk, WithinMax, Counted, Linked, ClientsOk, ExitsTold;
    QuietStep(cfg, p, MarkDestroy(p, a));
    QuietStep(cfg, p, WriteFails(p, a));
  }

  lemma ReadOk(cfg: Config, p: Pool, r: ReqId, n: nat)
    requires Inv(cfg, p) && IsRegistered(p, r)
    ensures Inv(cfg, p.(reqs := p.reqs[r := p.reqs[r].(bytesRead := p.reqs[r].bytesRead + n)]))
  {
    hide ListsOk, WithinMax, Counted, Linked, ClientsOk, ExitsTold;
    QuietStep(cfg, p, p.(reqs := p.reqs[r := p.reqs[r].(bytesRead := p.reqs[r].bytesRead + n)]));
  }

  lemma ClientStep(cfg: Config, p: Pool, c: ClientId, cl: Client)
    requires Inv(cfg, p) && c in p.clients && ClientGrows(p.clients[c], cl)
    ensures Inv(cfg, SetClient(p, c, cl))
  {
    hide ListsOk, WithinMax, Counted, Linked, ClientsOk, ExitsTold;
    QuietStep(cfg, p, SetClient(p, c, cl));
  }

  // ---- Every step, every run ----

  lemma EmptyOk(cfg: Config)
    ensures Inv(cfg, EMPTY)
  {
    assert Reusable(EMPTY) == {};
  }

  lemma StepKeeps(cfg: Config, p: Pool, s: Step)
    requires Inv(cfg, p) && Enabled(cfg, p, s) && cfg.multiplex >= 1
    ensures Inv(cfg, Next(cfg, p, s))
  {
    hide Inv, Reusable, Pick, Register, ConnectFails, Close, Retry, Reap, Kill, KillAll, WriteFails, MarkDestroy;
    match s
    case Open(c, safe) => OpenOk(cfg, p, c, safe);
    case PickIdle(c, a) => PickIdleOk(cfg, p, c, a);
    case StartApp(c, a, pid, noexec) => PickStartedOk(cfg, p, c, a, StartedApp(pid, noexec));
    case PickActive(c, a) => PickOk(cfg, p, c, a);
    case GiveUp(c) => GiveUpOk(cfg, p, c);
    case Registers(c, r) => RegisterOk(cfg, p, c, r);
    case FailsToConnect(c) => ConnectFailsOk(cfg, p, c);
    case Deliver(r) => if IsRegistered(p, r) && MayRetry(p, r) { RetryOk(cfg, p, r); }
    case Closes(c) => CloseOk(cfg, p, p.clients[c].phase.req);
    case Exits(a, status) => ReapOk(cfg, p, a, status);
    case Maintain(a) => PruneOk(cfg, p, a);
    case Shutdown => ShutdownOk(cfg, p);
    case WriteError(r) => WriteFailsOk(cfg, p, p.reqs[r].app);
    case BadRecord(r) => WriteFailsOk(cfg, p, p.reqs[r].app);
    case ReadBytes(r, n) => ReadOk(cfg, p, r, n);
    case ClientBody(c, n) => ClientStep(cfg, p, c, p.clients[c].(bodyBytes := p.clients[c].bodyBytes + n));
    case ClientEof(c) => ClientStep(cfg, p, c, p.clients[c].(eof := true));
    case ClientResponds(c) => ClientStep(cfg, p, c, p.clients[c].(responded := true));
  }

  lemma PickIdleOk(cfg: Config, p: Pool, c: ClientId, a: AppId)
    requires Inv(cfg, p) && SelectingClient(p, c) && a in Reusable(p) && a in p.table && cfg.multiplex >= 1
    ensures Inv(cfg, Pick(p, c, a))
  {
    hide Inv;
    PickOk(cfg, p, c, a);
  }

  lemma PickStartedOk(cfg: Config, p: Pool, c: ClientId, a: AppId, app: App)
    requires Inv(cfg, p) && SelectingClient(p, c) && a !in p.table && Reusable(p) == {} && |p.active| < cfg.maxApps
    requires cfg.multiplex >= 1 && app.requests == {} && !app.reaped && !app.exited && app.inUse == 0 && !app.destroy
    ensures Inv(cfg, Pick(SetApp(p, a, app), c, a))
  {
    hide WithinMax, Counted, Linked, ClientsOk, ExitsTold;
    StartOk(cfg, p, a, app);
    PickOk(cfg, SetApp(p, a, app), c, a);
  }

  lemma RunStep(cfg: Config, ps: seq<Pool>, ss: seq<Step>, i: nat)
    requires IsRun(cfg, ps, ss) && i < |ss|
    ensures |ps| == |ss| + 1 && i + 1 < |ps| && Enabled(cfg, ps[i], ss[i]) && ps[i + 1] == Next(cfg, ps[i], ss[i])
  {
    hide Enabled, Next;
  }

  /** Every reachable state satisfies the invariant. */
  lemma {:induction false} RunKeeps(cfg: Config, ps: seq<Pool>, ss: seq<Step>, k: nat)
    requires |ps| == |ss| + 1 && IsRun(cfg, ps, ss) && cfg.multiplex >= 1 && k < |ps|
    ensures Inv(cfg, ps[k])
  {
    if k == 0 {
      EmptyOk(cfg);
    } else {
      RunKeeps(cfg, ps, ss, k - 1);
      hide Inv, Next, Enabled, IsRun;
      RunStep(cfg, ps, ss, k - 1);
      StepKeeps(cfg, ps[k - 1], ss[k - 1]);
    }
  }

  // ---- What the runs of the pool guarantee ----

  /** Nothing is started or shared beyond the limits, and the two lists hold what their names say. */
  lemma PoolLimits(cfg: Config, ps: seq<Pool>, ss: seq<Step>, k: nat, a: AppId)
    requires IsRun(cfg, ps, ss) && cfg.multiplex >= 1 && k < |ps| && a in ps[k].table
    ensures var p := ps[k];
            && |p.active| + |Reusable(p)| <= cfg.maxApps && p.active !! p.idle
            && (a in p.active <==> p.table[a].inUse >= 1) && p.table[a].inUse <= cfg.multiplex
            && (a in p.idle ==> p.table[a].inUse == 0)
  {
    RunKeeps(cfg, ps, ss, k);
  }

  /** An app is in use exactly as often as it has registered requests and selections still connecting. */
  lemma UseIsCounted(cfg: Config, ps: seq<Pool>, ss: seq<Step>, k: nat, a: AppId)
    requires IsRun(cfg, ps, ss) && cfg.multiplex >= 1 && k < |ps| && a in ps[k].table
    ensures ps[k].table[a].inUse == |ps[k].table[a].requests| + |Connectors(ps[k].clients, a)|
    ensures !ps[k].killedBusy
  {
    RunKeeps(cfg, ps, ss, k);
    hide Connectors;
  }

  /** Every selection is given back exactly once: a client holds one use while it connects or is registered. */
  lemma EachAcquireIsReleased(cfg: Config, ps: seq<Pool>, ss: seq<Step>, k: nat, c: ClientId)
    requires IsRun(cfg, ps, ss) && cfg.multiplex >= 1 && k < |ps| && c in ps[k].clients
    ensures var cl := ps[k].clients[c]; cl.acquired == cl.released + Held(cl.phase)
  {
    RunKeeps(cfg, ps, ss, k);
    assert ClientOk(ps[k], ps[k].clients[c]);
  }

  /** When every client has finished, or has no app yet, no app is in use. */
  lemma NothingLeaks(cfg: Config, p: Pool, kept: set<ClientId>)
    requires Inv(cfg, p) && OthersFinished(p, kept)
    ensures p.active == {} && forall a :: a in p.table ==> p.table[a].inUse == 0
  {
    forall a | a in p.table ensures p.table[a].inUse == 0 {
      assert Connectors(p.clients, a) == {};
      RequestHasClient(p, a);
    }
  }

  lemma RequestHasClient(p: Pool, a: AppId)
    requires Linked(p) && a in p.table
    ensures p.table[a].requests == {} || exists c :: c in p.clients && p.clients[c].phase.Registered?
  {
    if r :| r in p.table[a].requests {
      assert RequestLinked(p, a, r);
    }
  }

  // ---- Every client can finish, and every client can be served ----

  ghost predicate AllFinished(p: Pool) {
    OthersFinished(p, {})
  }

  /** Only the given clients are not finished, and they have no app yet. */
  ghost predicate OthersFinished(p: Pool, kept: set<ClientId>) {
    forall c :: c in p.clients ==> p.clients[c].phase.Finished? || (c in kept && p.clients[c].phase.Selecting?)
  }

  /** The steps lead from p to q, each enabled when it is taken. */
  ghost predicate Leads(cfg: Config, p: Pool, ss: seq<Step>, q: Pool)
    decreases |ss|
  {
    if ss == [] then q == p else Enabled(cfg, p, ss[0]) && Leads(cfg, Next(cfg, p, ss[0]), ss[1..], q)
  }

  ghost function ConnectingClients(p: Pool): set<ClientId> {
    set c | c in p.clients && p.clients[c].phase.Connecting?
  }

  ghost function OpenClients(p: Pool): set<ClientId> {
    set c | c in p.clients && !p.clients[c].phase.Finished? && !p.clients[c].phase.Connecting?
  }

  /** A client of the kept ones that waits for an app. */
  predicate Waits(p: Pool, c: ClientId, kept: set<ClientId>) {
    c in kept && SelectingClient(p, c)
  }

  /** The step that ends a selection, a connection attempt or a request. */
  ghost function EndStep(p: Pool, c: ClientId): Step
    requires c in p.clients
  {
    match p.clients[c].phase
    case Selecting(_, _) => GiveUp(c)
    case Connecting(_, _, _) => FailsToConnect(c)
    case _ => Closes(c)
  }

  lemma GiveUpOrFail(cfg: Config, p: Pool, c: ClientId)
    requires ConnectingClient(p, c)
    ensures var q := ConnectFails(cfg, p, c);
            c in q.clients && q.clients == p.clients[c := q.clients[c]] && !q.clients[c].phase.Connecting?
  {
    hide Release, AfterFailure, HasExited;
    FailedClient(p, p.clients[c], p.table[p.clients[c].phase.app]);
    var cl := p.clients[c];
    var a := cl.phase.app;
    var exited := HasExited(p.table[a]);
    var q := SetClient(p, c, AfterFailure(cl, p.table[a]));
    ReleaseEffect(cfg, if exited then MarkDestroy(q, a) else q, a);
  }

  lemma CloseEnds(cfg: Config, p: Pool, c: ClientId, r: ReqId)
    requires c in p.clients && IsRegistered(p, r) && p.reqs[r].client == c
    ensures var q := Close(cfg, p, r);
            c in q.clients && q.clients == p.clients[c := q.clients[c]] && q.clients[c].phase.Finished?
  {
    hide Release;
    var cl := p.clients[c];
    ReleaseEffect(cfg, Drop(p, r, cl.(phase := Finished, released := cl.released + 1)), p.reqs[r].app);
  }

  /** It is enabled, and brings its client nearer to the end while the others stay where they are. */
  lemma EndStepEnds(cfg: Config, p: Pool, c: ClientId)
    requires Linked(p) && c in p.clients && !p.clients[c].phase.Finished?
    ensures Enabled(cfg, p, EndStep(p, c))
    ensures var q := Next(cfg, p, EndStep(p, c));
            && c in q.clients && q.clients == p.clients[c := q.clients[c]]
            && !q.clients[c].phase.Connecting? && (!p.clients[c].phase.Connecting? ==> q.clients[c].phase.Finished?)
  {
    hide ConnectFails, Close;
    assert ClientLinked(p, c);
    match p.clients[c].phase
    case Selecting(_, _) =>
    case Connecting(_, _, _) => GiveUpOrFail(cfg, p, c);
    case Registered(r) => CloseEnds(cfg, p, c, r);
    case Finished =>
  }

  lemma InvLinked(cfg: Config, p: Pool)
    requires Inv(cfg, p)
    ensures Linked(p)
  {
  }

  lemma FewerLeft(p: Pool, q: Pool, c: ClientId)
    requires c in p.clients && !p.clients[c].phase.Finished? && c in q.clients && q.clients == p.clients[c := q.clients[c]]
    requires !q.clients[c].phase.Connecting? && (!p.clients[c].phase.Connecting? ==> q.clients[c].phase.Finished?)
    ensures |ConnectingClients(q)| < |ConnectingClients(p)| || (|ConnectingClients(q)| == |ConnectingClients(p)| && |OpenClients(q)| < |OpenClients(p)|)
  {
    if p.clients[c].phase.Connecting? {
      assert ConnectingClients(q) == ConnectingClients(p) - {c} && c in ConnectingClients(p);
    } else {
      assert ConnectingClients(q) == ConnectingClients(p);
      assert OpenClients(q) == OpenClients(p) - {c} && c in OpenClients(p);
    }
  }

  /** From every state of the invariant steps of the others lead to one in which only the kept clients are left. */
  lemma {:induction false} CanFinish(cfg: Config, p: Pool, kept: set<ClientId>) returns (ss: seq<Step>, q: Pool)
    requires Inv(cfg, p) && cfg.multiplex >= 1
    ensures Leads(cfg, p, ss, q) && OthersFinished(q, kept) && q.active == {} && Inv(cfg, q)
    ensures forall c :: c in kept && SelectingClient(p, c) ==> c in q.clients && q.clients[c] == p.clients[c]
    ensures forall c :: c in kept && SelectingClient(p, c) ==> GiveUp(c) !in ss && FailsToConnect(c) !in ss
    decreases |ConnectingClients(p)|, |OpenClients(p)|
  {
    hide Inv, Next, Enabled, EndStep, Linked;
    if c :| c in p.clients && !p.clients[c].phase.Finished? && !Waits(p, c, kept) {
      var s := EndStep(p, c);
      EndStepIsOf(p, c);
      InvLinked(cfg, p);
      EndStepEnds(cfg, p, c);
      var next := Next(cfg, p, s);
      StepKeeps(cfg, p, s);
      FewerLeft(p, next, c);
      ss, q := CanFinish(cfg, next, kept);
      assert ([s] + ss)[1..] == ss;
      ss := [s] + ss;
    } else {
      NothingLeaks(cfg, p, kept);
      ss, q := [], p;
    }
  }

  lemma EndStepIsOf(p: Pool, c: ClientId)
    requires c in p.clients
    ensures forall d :: d != c ==> EndStep(p, c) != GiveUp(d) && EndStep(p, c) != FailsToConnect(d)
  {
  }

  /** Whatever has happened, the clients can all come to an end, and then nothing has leaked. */
  lemma AlwaysCanFinish(cfg: Config, ps: seq<Pool>, ss: seq<Step>, k: nat) returns (more: seq<Step>, q: Pool)
    requires |ps| == |ss| + 1 && IsRun(cfg, ps, ss) && cfg.multiplex >= 1 && k < |ps|
    ensures Leads(cfg, ps[k], more, q) && AllFinished(q)
    ensures q.active == {} && forall a :: a in q.table ==> q.table[a].inUse == 0
  {
    hide Inv, Leads, IsRun;
    RunKeeps(cfg, ps, ss, k);
    more, q := CanFinish(cfg, ps[k], {});
    NothingLeaks(cfg, q, {});
  }

  lemma {:induction false} FreshId(s: set<nat>) returns (n: nat)
    ensures n !in s && forall m :: m in s ==> m < n
    decreases s
  {
    if s == {} {
      n := 0;
    } else {
      var x :| x in s;
      var k := FreshId(s - {x});
      n := if x < k then k else x + 1;
      assert forall m :: m in s ==> m == x || m in s - {x};
    }
  }

  /** A client waiting for an app, with no app in use, can take one and register on it. */
  lemma CanRegister(cfg: Config, p: Pool, c: ClientId) returns (ss: seq<Step>, q: Pool)
    requires Inv(cfg, p) && p.active == {} && cfg.maxApps >= 1 && SelectingClient(p, c)
    ensures Leads(cfg, p, ss, q) && GiveUp(c) !in ss && FailsToConnect(c) !in ss
    ensures c in q.clients && q.clients[c].phase.Registered? && IsRegistered(q, q.clients[c].phase.req)
  {
    hide Inv, Enabled, Next, HasExited, Reusable;
    var r := FreshId(p.reqs.Keys);
    var s, a := CanSelect(cfg, p, c);
    var mid := Next(cfg, p, s);
    var t := Registers(c, r);
    q := RegistersThen(cfg, mid, c, r);
    ss := [s, t];
    assert ss[1..] == [t] && [t][1..] == [];
    assert Leads(cfg, mid, [t], q);
  }

  lemma CanSelect(cfg: Config, p: Pool, c: ClientId) returns (s: Step, a: AppId)
    requires Inv(cfg, p) && p.active == {} && cfg.maxApps >= 1 && SelectingClient(p, c)
    ensures Enabled(cfg, p, s) && s != GiveUp(c) && s != FailsToConnect(c)
    ensures var q := Next(cfg, p, s);
            && ConnectingClient(q, c) && q.clients[c].phase.app == a && !HasExited(q.table[a]) && q.reqs == p.reqs
  {
    hide WithinMax, Counted, Linked, ClientsOk;
    if b :| b in Reusable(p) {
      s, a := PickIdle(c, b), b;
    } else {
      a := FreshId(p.table.Keys);
      s := StartApp(c, a, true, false);
    }
  }

  lemma RegistersThen(cfg: Config, p: Pool, c: ClientId, r: ReqId) returns (q: Pool)
    requires ConnectingClient(p, c) && r !in p.reqs && !HasExited(p.table[p.clients[c].phase.app])
    ensures Enabled(cfg, p, Registers(c, r)) && q == Next(cfg, p, Registers(c, r))
    ensures c in q.clients && q.clients[c].phase == Registered(r) && IsRegistered(q, r)
  {
    q := Register(p, c, r);
  }

  lemma {:induction false} LeadsThrough(cfg: Config, p: Pool, a: seq<Step>, q: Pool, b: seq<Step>, r: Pool)
    requires Leads(cfg, p, a, q) && Leads(cfg, q, b, r)
    ensures Leads(cfg, p, a + b, r)
    decreases |a|
  {
    hide Enabled, Next;
    if a == [] {
      assert a + b == b;
    } else {
      assert (a + b)[1..] == a[1..] + b;
      LeadsThrough(cfg, Next(cfg, p, a[0]), a[1..], q, b, r);
    }
  }

  /**
    No capacity is ever lost: in every reachable state a client that waits for an app can still be registered on one,
    without giving up or failing to connect itself.
   */
  lemma AlwaysCanBeServed(cfg: Config, ps: seq<Pool>, ss: seq<Step>, k: nat, c: ClientId) returns (more: seq<Step>, q: Pool)
    requires |ps| == |ss| + 1 && IsRun(cfg, ps, ss) && cfg.multiplex >= 1 && cfg.maxApps >= 1 && k < |ps|
    requires SelectingClient(ps[k], c)
    ensures Leads(cfg, ps[k], more, q) && GiveUp(c) !in more && FailsToConnect(c) !in more
    ensures c in q.clients && q.clients[c].phase.Registered? && IsRegistered(q, q.clients[c].phase.req)
  {
    hide Inv, Leads, IsRun;
    RunKeeps(cfg, ps, ss, k);
    var before, mid := CanFinish(cfg, ps[k], {c});
    var after;
    after, q := CanRegister(cfg, mid, c);
    LeadsThrough(cfg, ps[k], before, mid, after, q);
    more := before + after;
  }

  /** No lost exit: a request registered on an app that was reaped has its event posted, ready for delivery. */
  lemma ExitIsTold(cfg: Config, ps: seq<Pool>, ss: seq<Step>, k: nat, r: ReqId)
    requires IsRun(cfg, ps, ss) && cfg.multiplex >= 1 && k < |ps|
    requires IsRegistered(ps[k], r) && ps[k].table[ps[k].reqs[r].app].reaped
    ensures r in ps[k].reapPosted && Enabled(cfg, ps[k], Deliver(r))
  {
    RunKeeps(cfg, ps, ss, k);
    assert Recorded(ps[k], r);
  }

  // ---- Requests that have left ----

  lemma LaterTrans(p: Pool, q: Pool, s: Pool)
    requires Later(p, q) && Later(q, s)
    ensures Later(p, s)
  {
  }

  lemma SelectIsLater(p: Pool, a: AppId, q: Pool)
    requires a in p.table && q.table == Acquire(p, a).table && q.reqs == p.reqs
    ensures Later(p, q)
  {
    AcquireQuiet(p, a);
    hide Quiet, TableGrows, ReqsGrow, Later;
    AcquireTable(p, a);
    QuietIsLater(p, Acquire(p, a));
    SameTableLater(Acquire(p, a), q);
    LaterTrans(p, Acquire(p, a), q);
  }

  lemma AcquireTable(p: Pool, a: AppId)
    requires a in p.table
    ensures TableGrows(p, Acquire(p, a)) && ReqsGrow(p, Acquire(p, a))
  {
  }

  lemma ReleaseIsLater(cfg: Config, p: Pool, q: Pool, a: AppId)
    requires Later(p, q) && a in q.table
    ensures Later(p, Release(cfg, q, a))
  {
    hide Release, Later;
    ReleaseQuiet(cfg, q, a);
    hide TableGrows, ReqsGrow;
    QuietIsLater(q, Release(cfg, q, a));
    LaterTrans(p, q, Release(cfg, q, a));
  }

  lemma MarkIsLater(p: Pool, a: AppId)
    requires a in p.table
    ensures Later(p, MarkDestroy(p, a))
  {
  }

  lemma ConnectFailsIsLater(cfg: Config, p: Pool, c: ClientId)
    requires ConnectingClient(p, c)
    ensures Later(p, ConnectFails(cfg, p, c))
  {
    hide Release, AfterFailure, HasExited;
    FailedClient(p, p.clients[c], p.table[p.clients[c].phase.app]);
    var cl := p.clients[c];
    var a := cl.phase.app;
    var exited := HasExited(p.table[a]);
    var q := SetClient(p, c, AfterFailure(cl, p.table[a]));
    MarkIsLater(q, a);
    ReleaseIsLater(cfg, p, if exited then MarkDestroy(q, a) else q, a);
  }

  lemma DropIsLater(p: Pool, q: Pool, r: ReqId, cl: Client)
    requires Later(p, q) && r in q.reqs && q.reqs[r].app in q.table
    ensures Later(p, Drop(q, r, cl))
  {
  }

  lemma CloseIsLater(cfg: Config, p: Pool, r: ReqId)
    requires IsRegistered(p, r) && p.reqs[r].client in p.clients
    ensures Later(p, Close(cfg, p, r))
  {
    hide Release;
    var cl := p.clients[p.reqs[r].client];
    var cl' := cl.(phase := Finished, released := cl.released + 1);
    DropIsLater(p, p, r, cl');
    ReleaseIsLater(cfg, p, Drop(p, r, cl'), p.reqs[r].app);
  }

  lemma RetryIsLater(cfg: Config, p: Pool, r: ReqId)
    requires IsRegistered(p, r) && p.reqs[r].client in p.clients
    ensures Later(p, Retry(cfg, p, r))
  {
    hide Release;
    var cl := p.clients[p.reqs[r].client];
    var cl' := cl.(phase := Selecting(0, true), released := cl.released + 1, silent := !cl.responded);
    MarkIsLater(p, p.reqs[r].app);
    DropIsLater(p, MarkDestroy(p, p.reqs[r].app), r, cl');
    ReleaseIsLater(cfg, p, Drop(MarkDestroy(p, p.reqs[r].app), r, cl'), p.reqs[r].app);
  }

  lemma KillIsLater(p: Pool, a: AppId)
    requires a in p.table
    ensures Later(p, Kill(p, a))
  {
    KillEffect(p, a);
    hide Kill;
  }

  lemma NextIsLater(cfg: Config, p: Pool, s: Step)
    requires Enabled(cfg, p, s)
    ensures Later(p, Next(cfg, p, s))
  {
    hide Reusable, Register, ConnectFails, Close, Retry, Kill, Later;
    var q := Next(cfg, p, s);
    match s
    case PickIdle(c, a) => SelectIsLater(p, a, q);
    case StartApp(c, a, pid, noexec) =>
      StartIsLater(p, a, StartedApp(pid, noexec));
      SelectIsLater(SetApp(p, a, StartedApp(pid, noexec)), a, q);
      LaterTrans(p, SetApp(p, a, StartedApp(pid, noexec)), q);
    case PickActive(c, a) => SelectIsLater(p, a, q);
    case Registers(c, r) => RegisterLater(p, c, r);
    case FailsToConnect(c) => ConnectFailsIsLater(cfg, p, c);
    case Deliver(r) => DeliverIsLater(cfg, p, r);
    case Closes(c) => CloseIsLater(cfg, p, p.clients[c].phase.req);
    case Exits(a, status) => QuietTableIsLater(p, q);
    case Maintain(a) => KillIsLater(p, a);
    case Shutdown => QuietTableIsLater(p, q);
    case WriteError(r) => QuietTableIsLater(p, q);
    case BadRecord(r) => QuietTableIsLater(p, q);
    case ReadBytes(r, n) => ReadIsLater(p, r, n);
    case _ => SameTableLater(p, q);
  }

  lemma QuietTableIsLater(p: Pool, q: Pool)
    requires TableGrows(p, q) && q.reqs == p.reqs
    ensures Later(p, q)
  {
    QuietIsLater(p, q);
  }

  lemma ReadIsLater(p: Pool, r: ReqId, n: nat)
    requires IsRegistered(p, r)
    ensures Later(p, p.(reqs := p.reqs[r := p.reqs[r].(bytesRead := p.reqs[r].bytesRead + n)]))
  {
  }

  lemma StartIsLater(p: Pool, a: AppId, app: App)
    requires a !in p.table && app.requests == {}
    ensures Later(p, SetApp(p, a, app))
  {
  }

  lemma DeliverIsLater(cfg: Config, p: Pool, r: ReqId)
    requires IsRegistered(p, r) ==> p.reqs[r].client in p.clients
    ensures Later(p, Lost(cfg, p, r))
  {
    hide Retry, Later;
    SameTableLater(p, p);
    if IsRegistered(p, r) {
      RetryIsLater(cfg, p, r);
    }
  }

  lemma {:induction false} RunIsLater(cfg: Config, ps: seq<Pool>, ss: seq<Step>, i: nat, j: nat)
    requires |ps| == |ss| + 1 && IsRun(cfg, ps, ss) && i <= j < |ps|
    ensures Later(ps[i], ps[j])
    decreases j
  {
    hide Later, Next, Enabled, IsRun;
    if i == j {
      SameTableLater(ps[i], ps[j]);
    } else {
      RunIsLater(cfg, ps, ss, i, j - 1);
      RunStep(cfg, ps, ss, j - 1);
      NextIsLater(cfg, ps[j - 1], ss[j - 1]);
      LaterTrans(ps[i], ps[j - 1], ps[j]);
    }
  }

  /** Once a request has left its app, no event for it changes anything, however late the event is delivered. */
  lemma StaleEventsDoNothing(cfg: Config, ps: seq<Pool>, ss: seq<Step>, i: nat, j: nat, r: ReqId)
    requires IsRun(cfg, ps, ss) && i <= j < |ps| && r in ps[i].reqs && !IsRegistered(ps[i], r)
    ensures Enabled(cfg, ps[j], Deliver(r)) ==> Next(cfg, ps[j], Deliver(r)) == ps[j]
    ensures r in ps[j].reqs && ps[j].reqs[r].bytesRead == ps[i].reqs[r].bytesRead
  {
    RunIsLater(cfg, ps, ss, i, j);
  }

  /**
    One client open is sent to at most two apps. A second request goes to another app, and only after the first one
    brought no bytes, with nothing responded, the whole input seen, no body, and a safe method.
   */
  lemma SendsAtMostTwice(cfg: Config, ps: seq<Pool>, ss: seq<Step>, k: nat, c: ClientId)
    requires IsRun(cfg, ps, ss) && cfg.multiplex >= 1 && k < |ps| && c in ps[k].clients
    ensures var p, cl := ps[k], ps[k].clients[c];
            && (forall r :: r in p.reqs && p.reqs[r].client == c ==> r in cl.sent)
            && |cl.sent| <= 2 && (forall r <- cl.sent :: r in p.reqs)
            && (|cl.sent| == 2 ==> Unanswered(p, cl) && p.reqs[cl.sent[1]].app != p.reqs[cl.sent[0]].app)
            && (!cl.safe || cl.bodyBytes > 0 || !cl.eof ==> |cl.sent| <= 1)
  {
    RunKeeps(cfg, ps, ss, k);
    var p := ps[k];
    assert ClientOk(p, p.clients[c]);
    forall r | r in p.reqs && p.reqs[r].client == c ensures r in p.clients[c].sent {
      assert Recorded(p, r);
    }
  }
}
