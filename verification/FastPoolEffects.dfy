/**
  What each locked section does, field by field: a second account of the steps, kept apart from the functions that the
  sections are built from, and the proof that the two agree.
 */
module FastPoolEffects {
  import opened FastPool
  import opened FastPoolInvariant
  import opened FastPoolRuns
  import opened FastPoolService

  // ---- Giving back a use ----

  /** An app that has taken its limit of requests is not used again. */
  predicate WornOut(cfg: Config, app: App) {
    app.pid && cfg.maxRequests < 0x7fff_ffff_ffff_ffff && app.nextID >= cfg.maxRequests
  }

  /**
    p becomes q by giving back one use of app a, otherwise as `app`. A use that is not the last only counts. The last
    takes the app off the active list; an app that is marked, or worn out, is killed if it was launched here, and an
    app that is neither marked nor dead is idle again.
   */
  ghost predicate GivesBack(cfg: Config, p: Pool, q: Pool, a: AppId, app: App)
    requires a in p.table
  {
    if app.inUse > 1 then
      q.table == p.table[a := app.(inUse := app.inUse - 1)] && q.active == p.active && q.idle == p.idle
    else
      var retired := app.destroy || WornOut(cfg, app);
      && q.table == p.table[a := app.(inUse := app.inUse - 1, destroy := retired, destroyed := app.destroyed || (retired && app.pid))]
      && q.active == p.active - {a}
      && q.idle == if retired || app.destroyed then p.idle else p.idle + {a}
  }

  ghost predicate SameEvents(p: Pool, q: Pool) {
    q.reqs == p.reqs && q.reapPosted == p.reapPosted && q.commsPosted == p.commsPosted && q.shutdown == p.shutdown
  }

  lemma ReleaseGivesBack(cfg: Config, p: Pool, a: AppId)
    requires a in p.table
    ensures GivesBack(cfg, p, Release(cfg, p, a), a, p.table[a]) && SameEvents(p, Release(cfg, p, a))
    ensures Release(cfg, p, a).clients == p.clients
  {
    var app := Unuse(cfg, p.table[a]);
    var q := SetApp(p, a, app).(active := p.active - {a});
    if app.inUse <= 0 {
      SettleGives(q, a);
      DoubleUpdate(p.table, a, app, Settle(q, a).table[a]);
    }
    hide Settle;
  }

  lemma SettleGives(p: Pool, a: AppId)
    requires a in p.table
    ensures var q, app := Settle(p, a), p.table[a];
            && q.table == p.table[a := app.(destroyed := app.destroyed || (app.destroy && app.pid))] && q.active == p.active
            && q.idle == (if app.destroy || app.destroyed then p.idle else p.idle + {a})
            && SameEvents(p, q) && q.clients == p.clients
  {
    assert p.table[a := p.table[a]] == p.table;
  }

  lemma DoubleUpdate<V>(m: map<AppId, V>, a: AppId, x: V, y: V)
    ensures m[a := x][a := y] == m[a := y]
  {
  }

  // ---- Each step ----

  /** The client has selected app a and is about to connect to it. */
  function Chosen(cl: Client, a: AppId): Client
    requires cl.phase.Selecting?
  {
    cl.(phase := Connecting(a, cl.phase.retry, cl.phase.second), acquired := cl.acquired + 1)
  }

  /** App a gets one more use by client c, and is active. */
  ghost predicate Takes(p: Pool, q: Pool, c: ClientId, a: AppId, app: App)
    requires SelectingClient(p, c)
  {
    && q.clients == p.clients[c := Chosen(p.clients[c], a)] && q.table == p.table[a := app.(inUse := app.inUse + 1)]
    && q.active == p.active + {a} && q.idle == p.idle - {a} && SameEvents(p, q)
  }

  /** A client that could not connect: once it goes on to another app, if the first has exited. */
  ghost predicate Reconnects(cl: Client, app: App, after: Client)
    requires cl.phase.Connecting?
  {
    after == cl.(released := cl.released + 1,
                 phase := if cl.phase.retry == 0 && !app.noexec && (app.destroyed || app.exited) then Selecting(1, cl.phase.second) else Finished)
  }

  /** When the request r of a lost app is sent again: all the conditions of its one retry. */
  ghost predicate SentAgain(p: Pool, r: ReqId) {
    && r in p.reqs && p.reqs[r].app in p.table && r in p.table[p.reqs[r].app].requests && p.reqs[r].client in p.clients
    && !p.reqs[r].retried && p.reqs[r].bytesRead == 0
    && var cl := p.clients[p.reqs[r].client];
       !cl.responded && cl.eof && cl.bodyBytes == 0 && cl.safe && cl.phase == Registered(r)
  }

  ghost predicate Means(cfg: Config, p: Pool, s: Step, q: Pool)
    requires Enabled(cfg, p, s)
  {
    match s
    case Open(c, safe) =>
      q == p.(clients := p.clients[c := Client(Selecting(0, false), safe, 0, false, false, [], 0, 0, false)])
    case PickIdle(c, a) => Takes(p, q, c, a, p.table[a])
    case PickActive(c, a) => Takes(p, q, c, a, p.table[a])
    case StartApp(c, a, pid, noexec) => Takes(p, q, c, a, App(pid && !noexec, false, noexec, false, noexec, false, 0, 1, {}))
    case GiveUp(c) => q == p.(clients := p.clients[c := p.clients[c].(phase := Finished)])
    case Registers(c, r) =>
      var cl := p.clients[c];
      var a := cl.phase.app;
      && q.clients == p.clients[c := cl.(phase := Registered(r), sent := cl.sent + [r])]
      && q.reqs == p.reqs[r := Req(c, a, 0, cl.phase.second)]
      && a in q.table && q.table == p.table[a := p.table[a].(requests := p.table[a].requests + {r}, nextID := q.table[a].nextID)]
      && (0 <= p.table[a].nextID < 0x7fff_ffff_ffff_ffff ==> q.table[a].nextID > p.table[a].nextID)
      && q.active == p.active && q.idle == p.idle && q.reapPosted == p.reapPosted && q.commsPosted == p.commsPosted
    case FailsToConnect(c) =>
      var a := p.clients[c].phase.app;
      var app := p.table[a];
      && c in q.clients && q.clients == p.clients[c := q.clients[c]] && Reconnects(p.clients[c], app, q.clients[c])
      && GivesBack(cfg, p, q, a, app.(destroy := app.destroy || app.destroyed || app.exited)) && SameEvents(p, q)
    case Deliver(r) =>
      if !SentAgain(p, r) then q == p
      else
        var a, c := p.reqs[r].app, p.reqs[r].client;
        var cl := p.clients[c];
        && q.clients == p.clients[c := cl.(phase := Selecting(0, true), released := cl.released + 1, silent := true)]
        && GivesBack(cfg, p, q, a, p.table[a].(requests := p.table[a].requests - {r}, destroy := true)) && SameEvents(p, q)
    case Closes(c) =>
      var cl := p.clients[c];
      var r := cl.phase.req;
      var a, c' := p.reqs[r].app, p.reqs[r].client;
      var cl' := p.clients[c'];
      && q.clients == p.clients[c' := cl'.(phase := Finished, released := cl'.released + 1)]
      && GivesBack(cfg, p, q, a, p.table[a].(requests := p.table[a].requests - {r})) && SameEvents(p, q)
    case Exits(a, status) =>
      q == p.(table := p.table[a := p.table[a].(exited := status, destroyed := true, pid := false, reaped := true)],
              idle := p.idle - {a}, reapPosted := p.reapPosted + p.table[a].requests)
    case Maintain(a) =>
      && q.table == p.table[a := p.table[a].(destroyed := p.table[a].destroyed || p.table[a].pid)]
      && q.clients == p.clients && q.active == p.active && q.idle == p.idle && SameEvents(p, q)
    case Shutdown =>
      && q.table.Keys == p.table.Keys
      && (forall a :: a in p.table ==>
            q.table[a] == p.table[a].(destroyed := p.table[a].destroyed || (p.table[a].pid && (a in p.active || a in p.idle))))
      && q == p.(table := q.table, shutdown := true)
    case WriteError(r) =>
      var a := p.reqs[r].app;
      q == p.(table := p.table[a := p.table[a].(destroy := true)], commsPosted := p.commsPosted + p.table[a].requests)
    case BadRecord(r) =>
      var a := p.reqs[r].app;
      q == p.(table := p.table[a := p.table[a].(destroy := true)])
    case ReadBytes(r, n) => q == p.(reqs := p.reqs[r := p.reqs[r].(bytesRead := p.reqs[r].bytesRead + n)])
    case ClientBody(c, n) => q == p.(clients := p.clients[c := p.clients[c].(bodyBytes := p.clients[c].bodyBytes + n)])
    case ClientEof(c) => q == p.(clients := p.clients[c := p.clients[c].(eof := true)])
    case ClientResponds(c) => q == p.(clients := p.clients[c := p.clients[c].(responded := true)])
  }

  lemma TakesOne(p: Pool, c: ClientId, a: AppId)
    requires SelectingClient(p, c) && a in p.table
    ensures Takes(p, Pick(p, c, a), c, a, p.table[a])
  {
  }

  lemma StartsAndTakes(p: Pool, c: ClientId, a: AppId, app: App)
    requires SelectingClient(p, c) && a !in p.table
    ensures Takes(p, Pick(SetApp(p, a, app), c, a), c, a, app)
  {
    TakesOne(SetApp(p, a, app), c, a);
    assert p.table[a := app][a := app.(inUse := app.inUse + 1)] == p.table[a := app.(inUse := app.inUse + 1)];
  }

  /** Giving back a use of an app that was just changed. */
  lemma GivesBackChanged(cfg: Config, p: Pool, a: AppId, app: App, clients: map<ClientId, Client>)
    requires a in p.table
    ensures var q := Release(cfg, SetApp(p, a, app).(clients := clients), a);
            GivesBack(cfg, p, q, a, app) && SameEvents(p, q) && q.clients == clients
  {
    hide Release;
    var p' := SetApp(p, a, app).(clients := clients);
    ReleaseGivesBack(cfg, p', a);
    DoubleUpdate(p.table, a, app, Release(cfg, p', a).table[a]);
  }

  lemma FailsMeans(cfg: Config, p: Pool, c: ClientId)
    requires ConnectingClient(p, c)
    ensures Means(cfg, p, FailsToConnect(c), Next(cfg, p, FailsToConnect(c)))
  {
    hide Release, GivesBack;
    var cl := p.clients[c];
    var a := cl.phase.app;
    var app := p.table[a];
    var app' := app.(destroy := app.destroy || app.destroyed || app.exited);
    assert p.table[a := app] == p.table;
    GivesBackChanged(cfg, p, a, app', p.clients[c := AfterFailure(cl, app)]);
  }

  lemma DropMeans(cfg: Config, p: Pool, r: ReqId, app: App, cl: Client)
    requires IsRegistered(p, r) && app == p.table[p.reqs[r].app].(destroy := app.destroy)
    ensures var a := p.reqs[r].app;
            var app' := app.(requests := app.requests - {r});
            var q := Release(cfg, Drop(SetApp(p, a, app), r, cl), a);
            GivesBack(cfg, p, q, a, app') && SameEvents(p, q) && q.clients == p.clients[p.reqs[r].client := cl]
  {
    hide Release, GivesBack;
    var a := p.reqs[r].app;
    var app' := app.(requests := app.requests - {r});
    assert p.table[a := app][a := app'] == p.table[a := app'];
    GivesBackChanged(cfg, p, a, app', p.clients[p.reqs[r].client := cl]);
  }

  lemma DeliverMeans(cfg: Config, p: Pool, r: ReqId)
    requires Enabled(cfg, p, Deliver(r))
    ensures Means(cfg, p, Deliver(r), Next(cfg, p, Deliver(r)))
  {
    hide Release, GivesBack, Drop;
    if SentAgain(p, r) {
      var cl := p.clients[p.reqs[r].client];
      DropMeans(cfg, p, r, p.table[p.reqs[r].app].(destroy := true), cl.(phase := Selecting(0, true), released := cl.released + 1, silent := true));
    }
  }

  lemma ClosesMeans(cfg: Config, p: Pool, c: ClientId)
    requires Enabled(cfg, p, Closes(c))
    ensures Means(cfg, p, Closes(c), Next(cfg, p, Closes(c)))
  {
    hide Release, GivesBack, Drop;
    var r := p.clients[c].phase.req;
    var a, cl := p.reqs[r].app, p.clients[p.reqs[r].client];
    assert p.table[a := p.table[a]] == p.table;
    DropMeans(cfg, p, r, p.table[a], cl.(phase := Finished, released := cl.released + 1));
  }

  predicate ByClient(s: Step) {
    s.PickIdle? || s.PickActive? || s.StartApp? || s.FailsToConnect? || s.Deliver? || s.Closes?
  }

  /** Connecting, closing and being told of a lost app. */
  lemma ClientMeans(cfg: Config, p: Pool, s: Step)
    requires Enabled(cfg, p, s) && ByClient(s)
    ensures Means(cfg, p, s, Next(cfg, p, s))
  {
    hide Takes, GivesBack, Release, Pick, Lost, ConnectFails, Close;
    match s
    case PickIdle(c, a) => TakesOne(p, c, a);
    case PickActive(c, a) => TakesOne(p, c, a);
    case StartApp(c, a, pid, noexec) => StartsAndTakes(p, c, a, StartedApp(pid, noexec));
    case FailsToConnect(c) => FailsMeans(cfg, p, c);
    case Deliver(r) => DeliverMeans(cfg, p, r);
    case Closes(c) => ClosesMeans(cfg, p, c);
  }

  /** Every step of the protocol does exactly what the account above says. */
  lemma NextMeans(cfg: Config, p: Pool, s: Step)
    requires Enabled(cfg, p, s)
    ensures Means(cfg, p, s, Next(cfg, p, s))
  {
    if ByClient(s) {
      hide Means, Next, Enabled;
      ClientMeans(cfg, p, s);
    } else {
      hide Takes, GivesBack, Reconnects, Release, Pick, Lost, ConnectFails, Close;
      if s.Maintain? {
        assert p.table[s.app := p.table[s.app]] == p.table;
      }
    }
  }

  /**
    An event that an app is lost: if the request is registered on it, was not sent again before, no byte of an answer
    was read, nothing was responded, the whole of a bodyless request with a safe method was seen, and the client still
    has the request, then the client selects again for the second and last time, the request has left, the app is
    marked, and one use of it is given back. Otherwise nothing changes.
   */
  lemma DeliverExactly(cfg: Config, p: Pool, r: ReqId)
    requires Enabled(cfg, p, Deliver(r))
    ensures var q := Next(cfg, p, Deliver(r));
            && (q != p <==> SentAgain(p, r))
            && (SentAgain(p, r) ==>
                  var a, c := p.reqs[r].app, p.reqs[r].client;
                  && q.clients[c].phase == Selecting(0, true) && q.clients[c].released == p.clients[c].released + 1
                  && a in q.table && r !in q.table[a].requests && q.table[a].destroy
                  && q.table[a].inUse == p.table[a].inUse - 1)
  {
    DeliverMeans(cfg, p, r);
    hide Enabled, Next;
  }

  // ---- Pruning ----

  /** The idle apps that are launched, not marked, and expired. */
  function Aged(table: map<AppId, App>, idle: seq<AppId>, expired: set<AppId>): nat
    requires forall a <- idle :: a in table
  {
    if idle == [] then 0
    else
      Aged(table, idle[1..], expired) + if table[idle[0]].pid && !table[idle[0]].destroy && idle[0] in expired then 1 else 0
  }

  /**
    A maintenance pass kills a launched idle app exactly if it is marked, or has expired and the count, less the expired
    ones before it in the list, is above the minimum.
   */
  lemma {:induction false} DoomedExactly(table: map<AppId, App>, idle: seq<AppId>, expired: set<AppId>, count: int, minApps: int, i: nat)
    requires NoDuplicates(idle) && i < |idle| && forall a <- idle :: a in table
    ensures idle[i] in Doomed(table, idle, expired, count, minApps)
            <==> table[idle[i]].pid
                 && (table[idle[i]].destroy || (idle[i] in expired && count - Aged(table, idle[..i], expired) > minApps))
  {
    var app := table[idle[0]];
    var next := if app.pid && !app.destroy && idle[0] in expired then count - 1 else count;
    DoomedStep(table, idle, expired, count, minApps);
    DoomedAreIdle(table, idle[1..], expired, next, minApps);
    NextIsNew(idle, 0);
    if i > 0 {
      assert idle[..i][1..] == idle[1..][..i - 1] && idle[1..][i - 1] == idle[i];
      DoomedExactly(table, idle[1..], expired, next, minApps, i - 1);
    }
  }

  lemma InFront(apps: seq<AppId>)
    requires apps != []
    ensures forall a :: a in apps <==> a in apps[..|apps| - 1] || a == apps[|apps| - 1]
  {
    assert apps == apps[..|apps| - 1] + [apps[|apps| - 1]];
  }

  /** Killing apps marks exactly the launched ones among them as destroyed. */
  lemma {:induction false} KillEachExactly(p: Pool, apps: seq<AppId>)
    requires forall a <- apps :: a in p.table
    ensures var q := KillEach(p, apps);
            && (forall a :: a in p.table ==>
                  q.table[a] == p.table[a].(destroyed := p.table[a].destroyed || (a in apps && p.table[a].pid)))
            && q == p.(table := q.table, killedBusy := q.killedBusy)
  {
    hide Kill;
    if apps != [] {
      var front, last := apps[..|apps| - 1], apps[|apps| - 1];
      var mid := KillEach(p, front);
      KillEachExactly(p, front);
      KillExactly(mid, last);
      InFront(apps);
      assert KillEach(p, apps) == Kill(mid, last);
      hide KillEach;
      forall a | a in p.table
        ensures Kill(mid, last).table[a] == p.table[a].(destroyed := p.table[a].destroyed || (a in apps && p.table[a].pid))
      {
        assert a != last ==> (a in apps <==> a in front);
      }
    }
  }

  lemma KillExactly(p: Pool, a: AppId)
    requires a in p.table
    ensures var q := Kill(p, a);
            && q.table == p.table[a := p.table[a].(destroyed := p.table[a].destroyed || p.table[a].pid)]
            && q == p.(table := q.table, killedBusy := q.killedBusy)
  {
    assert p.table[a := p.table[a]] == p.table;
  }
}
