/**
  The locked sections of fastHandler.c on the lists themselves: the loops over the idle apps, the active apps and the
  requests, each proved to do its step of FastPool.
 */
module FastPoolService {
  import opened Bytes
  import opened FastPool
  import opened FastPoolInvariant
  import opened FastPoolRuns

  ghost function Members(s: seq<AppId>): set<AppId> {
    set x | x in s
  }

  ghost predicate NoDuplicates(s: seq<AppId>) {
    forall i, j :: 0 <= i < j < |s| ==> s[i] != s[j]
  }

  lemma RemoveAt(s: seq<AppId>, i: nat)
    requires NoDuplicates(s) && i < |s|
    ensures var t := s[..i] + s[i + 1..]; NoDuplicates(t) && Members(t) == Members(s) - {s[i]}
  {
    var t := s[..i] + s[i + 1..];
    assert s == s[..i] + [s[i]] + s[i + 1..];
    forall x ensures x in t <==> x in s && x != s[i] {
      if x in s && x != s[i] {
        var k :| 0 <= k < |s| && s[k] == x;
        assert t[if k < i then k else k - 1] == x;
      }
    }
  }

  lemma AddAtEnd(s: seq<AppId>, a: AppId)
    requires NoDuplicates(s) && a !in s
    ensures NoDuplicates(s + [a]) && Members(s + [a]) == Members(s) + {a}
  {
  }

  lemma InMembers(s: seq<AppId>)
    ensures forall a :: a in Members(s) <==> a in s
  {
  }

  lemma {:induction false} CountMembers(s: seq<AppId>)
    requires NoDuplicates(s)
    ensures |Members(s)| == |s|
  {
    if s != [] {
      var n := |s| - 1;
      CountMembers(s[..n]);
      assert s == s[..n] + [s[n]];
      assert Members(s) == Members(s[..n]) + {s[n]};
    } else {
      assert Members(s) == {};
    }
  }

  /** mprRemoveItem on a list that holds an item at most once. */
  method RemoveItem(s: seq<AppId>, a: AppId) returns (t: seq<AppId>)
    requires NoDuplicates(s)
    ensures NoDuplicates(t) && Members(t) == Members(s) - {a}
    ensures if a in s then exists i :: 0 <= i < |s| && s[i] == a && t == s[..i] + s[i + 1..] else t == s
  {
    var i := 0;
    while i < |s| && s[i] != a
      invariant 0 <= i <= |s| && a !in s[..i]
    {
      i := i + 1;
    }
    if i == |s| {
      assert s == s[..i];
      return s;
    }
    RemoveAt(s, i);
    return s[..i] + s[i + 1..];
  }

  lemma UsedIsActive(cfg: Config, p: Pool, a: AppId)
    requires Inv(cfg, p) && a in p.table && p.table[a].inUse >= 1
    ensures a in p.active
  {
    hide Counted, Linked, WithinMax, ExitsTold, ClientsOk;
  }

  lemma ConnectingIsUsed(cfg: Config, p: Pool, c: ClientId)
    requires Inv(cfg, p) && ConnectingClient(p, c)
    ensures p.clients[c].phase.app in p.active && p.table[p.clients[c].phase.app].inUse >= 1
  {
    hide ListsOk, Linked, WithinMax, ExitsTold, ClientsOk;
    var a := p.clients[c].phase.app;
    assert c in Connectors(p.clients, a);
    SubsetCard({c}, Connectors(p.clients, a));
    UsedIsActive(cfg, p, a);
  }

  lemma RegisteredIsUsed(cfg: Config, p: Pool, r: ReqId)
    requires Inv(cfg, p) && IsRegistered(p, r)
    ensures p.reqs[r].client in p.clients && p.reqs[r].app in p.active && p.table[p.reqs[r].app].inUse >= 1
  {
    hide ListsOk, WithinMax, ExitsTold, ClientsOk;
    var a := p.reqs[r].app;
    assert RequestLinked(p, a, r);
    SubsetCard({r}, p.table[a].requests);
    UsedIsActive(cfg, p, a);
  }

  /** The section that ends connecting keeps the invariant, whatever the socket did. */
  lemma FinishConnectKeeps(cfg: Config, p: Pool, c: ClientId, socket: bool, r: ReqId)
    requires Inv(cfg, p) && ConnectingClient(p, c) && r !in p.reqs
    ensures Inv(cfg, if socket && !HasExited(p.table[p.clients[c].phase.app]) then Register(p, c, r) else ConnectFails(cfg, p, c))
  {
    hide Inv, Register, ConnectFails;
    if socket && !HasExited(p.table[p.clients[c].phase.app]) {
      RegisterOk(cfg, p, c, r);
    } else {
      ConnectFailsOk(cfg, p, c);
    }
  }

  /** The sections that take a request off its app keep it too: closing, and an event that may retry. */
  lemma DropKeeps(cfg: Config, p: Pool, r: ReqId)
    requires Inv(cfg, p) && IsRegistered(p, r)
    ensures p.reqs[r].client in p.clients && Inv(cfg, Close(cfg, p, r)) && Inv(cfg, Lost(cfg, p, r))
  {
    RegisteredIsUsed(cfg, p, r);
    hide Inv, Close, Retry, MayRetry;
    CloseOk(cfg, p, r);
    if MayRetry(p, r) {
      RetryOk(cfg, p, r);
    }
  }

  datatype Selection = Selected(app: AppId) | StartFailed | Wait

  /** getFastApp's choice: a reusable idle app, else within the limit the one just started, else a usable one to share. */
  ghost predicate Selects(cfg: Config, p: Pool, a: AppId, started: Option<App>, q: Pool) {
    || (a in Reusable(p) && a in p.table && q == Acquire(p, a))
    || (Reusable(p) == {} && |p.active| < cfg.maxApps && a !in p.table && started.Some?
        && q == Acquire(SetApp(p, a, started.value), a))
    || (Reusable(p) == {} && |p.active| >= cfg.maxApps && a in p.active && a in p.table && Usable(p.table[a])
        && p.table[a].inUse < cfg.multiplex && q == Acquire(p, a))
  }

  lemma SelectsIdle(cfg: Config, p: Pool, a: AppId, newApp: AppId, started: Option<App>)
    requires a in Reusable(p) && a in p.table && newApp !in p.table
    ensures var q := p.(active := p.active + {a}, idle := p.idle - {a});
            Selects(cfg, p, a, if a == newApp then started else None, SetApp(q, a, p.table[a].(inUse := p.table[a].inUse + 1)))
  {
  }

  lemma SelectsNew(cfg: Config, p: Pool, a: AppId, started: Option<App>)
    requires Reusable(p) == {} && |p.active| < cfg.maxApps && a !in p.table && started.Some? && p.idle <= p.table.Keys
    ensures var q := SetApp(p, a, started.value).(active := p.active + {a});
            Selects(cfg, p, a, started, SetApp(q, a, q.table[a].(inUse := q.table[a].inUse + 1)))
  {
    hide Reusable;
    assert p.idle - {a} == p.idle;
  }

  lemma SelectsShared(cfg: Config, p: Pool, a: AppId)
    requires Reusable(p) == {} && |p.active| >= cfg.maxApps && a in p.active && a in p.table && Usable(p.table[a])
    requires p.table[a].inUse < cfg.multiplex && a !in p.idle
    ensures Selects(cfg, p, a, None, SetApp(p, a, p.table[a].(inUse := p.table[a].inUse + 1)))
  {
    hide Reusable;
    assert p.active + {a} == p.active && p.idle - {a} == p.idle;
  }

  /** Every choice of getFastApp is a step of the pool for the client that asked. */
  lemma SelectionIsAStep(cfg: Config, p: Pool, c: ClientId, a: AppId, pid: bool, noexec: bool, q: Pool) returns (s: Step)
    requires SelectingClient(p, c) && Selects(cfg, p, a, Some(StartedApp(pid, noexec)), q)
    ensures Enabled(cfg, p, s)
    ensures var cl := p.clients[c];
            Next(cfg, p, s) == SetClient(q, c, cl.(phase := Connecting(a, cl.phase.retry, cl.phase.second), acquired := cl.acquired + 1))
  {
    hide Reusable;
    s := if a in Reusable(p) && a in p.table && q == Acquire(p, a) then PickIdle(c, a)
         else if a !in p.table then StartApp(c, a, pid, noexec)
         else PickActive(c, a);
  }

  /** The apps that one pass of fastMaintenance kills: those marked for it, and expired ones while count allows. */
  function Doomed(table: map<AppId, App>, idle: seq<AppId>, expired: set<AppId>, count: int, minApps: int): seq<AppId>
    requires forall a <- idle :: a in table
  {
    if idle == [] then []
    else
      var a := idle[0];
      var app := table[a];
      if app.pid && app.destroy then [a] + Doomed(table, idle[1..], expired, count, minApps)
      else if app.pid && a in expired then
        (if count > minApps then [a] else []) + Doomed(table, idle[1..], expired, count - 1, minApps)
      else Doomed(table, idle[1..], expired, count, minApps)
  }

  ghost function KillEach(p: Pool, apps: seq<AppId>): (q: Pool)
    requires forall a <- apps :: a in p.table
    ensures q.table.Keys == p.table.Keys
  {
    if apps == [] then p else Kill(KillEach(p, apps[..|apps| - 1]), apps[|apps| - 1])
  }

  lemma KillNone(p: Pool)
    ensures KillEach(p, []) == p
  {
  }

  lemma KillOneMore(p: Pool, apps: seq<AppId>, a: AppId)
    requires (forall b <- apps :: b in p.table) && a in p.table
    ensures KillEach(p, apps + [a]) == Kill(KillEach(p, apps), a)
  {
    assert (apps + [a])[..|apps|] == apps;
  }

  lemma DoomedNone(table: map<AppId, App>, expired: set<AppId>, count: int, minApps: int)
    ensures Doomed(table, [], expired, count, minApps) == []
  {
  }

  lemma DoomedStep(table: map<AppId, App>, idle: seq<AppId>, expired: set<AppId>, count: int, minApps: int)
    requires idle != [] && forall a <- idle :: a in table
    ensures var app := table[idle[0]];
            var aged := app.pid && !app.destroy && idle[0] in expired;
            Doomed(table, idle, expired, count, minApps)
            == (if (app.pid && app.destroy) || (aged && count > minApps) then [idle[0]] else [])
               + Doomed(table, idle[1..], expired, if aged then count - 1 else count, minApps)
  {
  }

  lemma NextIsNew(s: seq<AppId>, i: nat)
    requires NoDuplicates(s) && i < |s|
    ensures s[i] !in s[i + 1..] && s[i] in s[i..] && forall a :: a in s[i + 1..] ==> a in s[i..]
  {
  }

  lemma ReleaseCases(cfg: Config, p: Pool, a: AppId)
    requires a in p.table
    ensures var app := p.table[a];
            var worn := app.pid && cfg.maxRequests < MAXINT64 && app.nextID >= cfg.maxRequests;
            var last := app.(inUse := app.inUse - 1, destroy := app.destroy || worn);
            Release(cfg, p, a)
            == if app.inUse > 1 then SetApp(p, a, app.(inUse := app.inUse - 1))
               else Settle(SetApp(p, a, last).(active := p.active - {a}), a)
  {
  }

  class Fast {
    var apps: seq<AppId>
    var idleApps: seq<AppId>
    var table: map<AppId, App>
    var reqs: map<ReqId, Req>
    var clients: map<ClientId, Client>
    var reapEvents: set<ReqId>
    const cfg: Config
    const minApps: int
    /** What the sections below leave alone, and the history of kills. */
    ghost var rest: Pool

    constructor (cfg: Config, minApps: int)
      ensures Valid() && View() == EMPTY && this.cfg == cfg && this.minApps == minApps
    {
      this.cfg, this.minApps := cfg, minApps;
      apps, idleApps, table, reapEvents, rest := [], [], map[], {}, EMPTY;
      reqs, clients := map[], map[];
    }

    ghost predicate Valid()
      reads this
    {
      && NoDuplicates(apps) && NoDuplicates(idleApps) && Members(apps) <= table.Keys && Members(idleApps) <= table.Keys
      && Members(apps) !! Members(idleApps)
    }

    ghost function View(): Pool
      reads this
    {
      rest.(active := Members(apps), idle := Members(idleApps), table := table, reqs := reqs, clients := clients,
            reapPosted := reapEvents)
    }

    /** The first idle app that can be used again. */
    method FindIdle() returns (next: nat)
      requires Valid()
      ensures next <= |idleApps|
      ensures next < |idleApps| ==> idleApps[next] in Reusable(View())
      ensures forall k :: 0 <= k < next ==> idleApps[k] in table && !Usable(table[idleApps[k]])
      ensures next == |idleApps| ==> Reusable(View()) == {}
    {
      hide NoDuplicates, Members;
      InMembers(idleApps);
      next := 0;
      while next < |idleApps| && !Usable(table[idleApps[next]])
        invariant 0 <= next <= |idleApps|
        invariant forall k :: 0 <= k < next ==> !Usable(table[idleApps[k]])
      {
        next := next + 1;
      }
    }

    /** The first active app that can serve another selection. */
    method FindShared() returns (next: nat)
      requires Valid()
      ensures next <= |apps| && forall a <- apps :: a in table
      ensures next < |apps| ==> Usable(table[apps[next]]) && table[apps[next]].inUse < cfg.multiplex
      ensures forall k :: 0 <= k < next ==> !Usable(table[apps[k]]) || table[apps[k]].inUse >= cfg.multiplex
      ensures next == |apps| ==> forall a <- apps :: !Usable(table[a]) || table[a].inUse >= cfg.multiplex
    {
      hide NoDuplicates, Members;
      InMembers(apps);
      next := 0;
      while next < |apps| && !(Usable(table[apps[next]]) && table[apps[next]].inUse < cfg.multiplex)
        invariant 0 <= next <= |apps|
        invariant forall k :: 0 <= k < next ==> !Usable(table[apps[k]]) || table[apps[k]].inUse >= cfg.multiplex
      {
        next := next + 1;
      }
    }

    /** An idle app becomes active. */
    method Activate(next: nat) returns (a: AppId)
      requires Valid() && next < |idleApps|
      modifies this`apps, this`idleApps
      ensures Valid() && a == old(idleApps[next]) && a in table && a in apps
      ensures View() == old(View()).(active := old(View()).active + {a}, idle := old(View()).idle - {a})
    {
      hide NoDuplicates, Members;
      InMembers(apps);
      InMembers(idleApps);
      a := idleApps[next];
      RemoveAt(idleApps, next);
      AddAtEnd(apps, a);
      idleApps := idleApps[..next] + idleApps[next + 1..];
      apps := apps + [a];
    }

    /** A started app becomes active. */
    method AddApp(a: AppId, app: App)
      requires Valid() && a !in table
      modifies this`apps, this`table
      ensures Valid() && a in table && a in apps
      ensures View() == SetApp(old(View()), a, app).(active := old(View()).active + {a})
    {
      hide NoDuplicates, Members;
      InMembers(apps);
      InMembers(idleApps);
      AddAtEnd(apps, a);
      table := table[a := app];
      apps := apps + [a];
    }

    /** Count a selection. */
    method Use(a: AppId)
      requires Valid() && a in table
      modifies this`table
      ensures Valid() && View() == SetApp(old(View()), a, old(table)[a].(inUse := old(table)[a].inUse + 1))
    {
      table := table[a := table[a].(inUse := table[a].inUse + 1)];
    }

    /**
      One pass of getFastApp's loop. started is what startFastApp would make, or none when it fails. Idle apps come
      first, then a new one within the limit, then a shared one; else the caller waits.
     */
    method GetFastApp(newApp: AppId, started: Option<App>) returns (s: Selection)
      requires Valid() && newApp !in table
      modifies this
      ensures Valid()
      ensures s.Selected? ==> Selects(cfg, old(View()), s.app, if s.app == newApp then started else None, View())
      ensures !s.Selected? ==> View() == old(View())
      ensures s.StartFailed? <==> old(Reusable(View())) == {} && |old(View()).active| < cfg.maxApps && started.None?
      ensures s.Wait? <==> old(Reusable(View())) == {} && |old(View()).active| >= cfg.maxApps
                           && forall a :: a in old(apps) && a in old(table) ==>
                                !Usable(old(table)[a]) || old(table)[a].inUse >= cfg.multiplex
    {
      hide NoDuplicates, Members, Reusable, Selects, Usable;
      ActiveCount();
      var a;
      var next := FindIdle();
      if next < |idleApps| {
        a := Activate(next);
        Use(a);
        SelectsIdle(cfg, old(View()), a, newApp, started);
      } else if |apps| < cfg.maxApps {
        if started.None? {
          return StartFailed;
        }
        a := newApp;
        AddApp(a, started.value);
        Use(a);
        SelectsNew(cfg, old(View()), a, started);
      } else {
        next := FindShared();
        if next == |apps| {
          return Wait;
        }
        a := apps[next];
        Use(a);
        SelectsShared(cfg, old(View()), a);
      }
      return Selected(a);
    }

    lemma ActiveCount()
      requires Valid()
      ensures |View().active| == |apps| && (forall a :: a in View().active <==> a in apps)
      ensures View().active <= table.Keys && View().idle <= table.Keys && View().active !! View().idle
    {
      CountMembers(apps);
    }

    method KillFastApp(a: AppId)
      requires Valid() && a in table
      modifies this`table, this`rest
      ensures Valid() && View() == Kill(old(View()), a)
      ensures table == old(table)[a := AfterKill(old(table)[a])]
      ensures rest == old(rest).(killedBusy := rest.killedBusy) && (rest.shutdown ==> rest == old(rest))
    {
      hide NoDuplicates, Members;
      var app := table[a];
      if app.pid {
        table := table[a := app.(destroyed := true)];
        rest := rest.(killedBusy := rest.killedBusy || (app.requests != {} && !rest.shutdown));
      }
    }

    method ReleaseFastApp(a: AppId)
      requires Valid() && a in apps && a in table && table[a].inUse >= 1
      modifies this
      ensures Valid() && View() == Release(cfg, old(View()), a)
    {
      hide NoDuplicates, Members, Settle, Release, Unuse;
      InMembers(apps);
      InMembers(idleApps);
      ReleaseCases(cfg, View(), a);
      var app := table[a].(inUse := table[a].inUse - 1);
      if app.inUse > 0 {
        table := table[a := app];
        assert View() == SetApp(old(View()), a, app);
        return;
      }
      if app.pid && cfg.maxRequests < MAXINT64 && app.nextID >= cfg.maxRequests {
        app := app.(destroy := true);
      }
      EndUse(a, app);
    }

    /** The last use is over: the app leaves the active list and settles. */
    method EndUse(a: AppId, app: App)
      requires Valid() && a in apps && a in table
      modifies this
      ensures Valid()
      ensures View() == Settle(SetApp(old(View()), a, app).(active := old(View()).active - {a}), a)
    {
      hide NoDuplicates, Members, Settle;
      RemoveLast(a);
      table := table[a := app];
      SettleFastApp(a);
    }

    method RemoveLast(a: AppId)
      requires Valid() && a in apps && a in table
      modifies this`apps
      ensures Valid() && a !in apps && a !in idleApps && View() == old(View()).(active := old(View()).active - {a})
    {
      hide NoDuplicates, Members;
      InMembers(idleApps);
      InMembers(apps);
      apps := RemoveItem(apps, a);
      InMembers(apps);
    }

    /** The end of releaseFastApp for an app that nothing uses any more. */
    method SettleFastApp(a: AppId)
      requires Valid() && a !in apps && a !in idleApps && a in table
      modifies this
      ensures Valid() && View() == Settle(old(View()), a)
    {
      hide NoDuplicates, Members;
      InMembers(apps);
      InMembers(idleApps);
      if table[a].pid && table[a].destroy {
        KillFastApp(a);
      }
      if !table[a].destroy && !table[a].destroyed {
        AddAtEnd(idleApps, a);
        idleApps := idleApps + [a];
      }
    }

    /** What the pool invariant gives the section that ends connecting. */
    lemma MayFinishConnect(c: ClientId)
      requires Valid() && Inv(cfg, View()) && ConnectingClient(View(), c)
      ensures clients[c].phase.app in apps && table[clients[c].phase.app].inUse >= 1
    {
      ConnectingIsUsed(cfg, View(), c);
      InMembers(apps);
    }

    /** What it gives the sections that take a request off its app. */
    lemma MayDropRequest(r: ReqId)
      requires Valid() && Inv(cfg, View()) && IsRegistered(View(), r)
      ensures reqs[r].client in clients && reqs[r].app in apps && table[reqs[r].app].inUse >= 1
    {
      RegisteredIsUsed(cfg, View(), r);
      InMembers(apps);
    }

    /** The locked part of connectFastRequest; socket says that a socket connected. r is the request to allocate. */
    method FinishConnect(c: ClientId, socket: bool, r: ReqId)
      requires Valid() && ConnectingClient(View(), c)
      requires clients[c].phase.app in apps && table[clients[c].phase.app].inUse >= 1
      modifies this
      ensures Valid()
      ensures View() == if socket && !HasExited(old(table)[old(clients)[c].phase.app]) then Register(old(View()), c, r)
                        else ConnectFails(cfg, old(View()), c)
    {
      hide NoDuplicates, Members, Release;
      var cl := clients[c];
      var a := cl.phase.app;
      var noexec, exited := table[a].noexec, HasExited(table[a]);
      if socket && !exited {
        var app := table[a];
        table := table[a := app.(requests := app.requests + {r}, nextID := AfterId(app.nextID))];
        clients := clients[c := cl.(phase := Registered(r), sent := cl.sent + [r])];
        reqs := reqs[r := Req(c, a, 0, cl.phase.second)];
        return;
      }
      var next := if cl.phase.retry != 0 || noexec || !exited then Finished else Selecting(1, cl.phase.second);
      clients := clients[c := cl.(phase := next, released := cl.released + 1)];
      if exited {
        table := table[a := table[a].(destroy := true)];
      }
      ReleaseFastApp(a);
    }

    /** mprRemoveItem on the app's requests; the client goes on as cl. */
    method DropRequest(r: ReqId, cl: Client)
      requires Valid() && r in reqs && reqs[r].app in table
      modifies this`table, this`clients
      ensures Valid() && View() == Drop(old(View()), r, cl)
    {
      hide NoDuplicates, Members;
      var a, c := reqs[r].app, reqs[r].client;
      table := table[a := table[a].(requests := table[a].requests - {r})];
      clients := clients[c := cl];
    }

    /** fastCloseRequest for a request that its client still holds. */
    method CloseRequest(r: ReqId)
      requires Valid() && r in reqs && reqs[r].app in table && reqs[r].client in clients
      requires reqs[r].app in apps && table[reqs[r].app].inUse >= 1
      modifies this
      ensures Valid() && View() == Close(cfg, old(View()), r)
    {
      hide NoDuplicates, Members, Release;
      var cl := clients[reqs[r].client];
      DropRequest(r, cl.(phase := Finished, released := cl.released + 1));
      ReleaseFastApp(reqs[r].app);
    }

    /** The locked part of retryFastRequest. */
    method RetryRequest(r: ReqId)
      requires Valid() && r in reqs && reqs[r].app in table && reqs[r].client in clients
      requires reqs[r].app in apps && table[reqs[r].app].inUse >= 1
      modifies this
      ensures Valid() && View() == Retry(cfg, old(View()), r)
    {
      hide NoDuplicates, Members, Release;
      var a := reqs[r].app;
      var cl := clients[reqs[r].client];
      table := table[a := table[a].(destroy := true)];
      DropRequest(r, cl.(phase := Selecting(0, true), released := cl.released + 1, silent := !cl.responded));
      ReleaseFastApp(a);
    }

    /** fastHandlerLost. */
    method RequestLost(r: ReqId)
      requires Valid() && (IsRegistered(View(), r) ==> reqs[r].client in clients)
      requires IsRegistered(View(), r) ==> reqs[r].app in apps && table[reqs[r].app].inUse >= 1
      modifies this
      ensures Valid() && View() == Lost(cfg, old(View()), r)
    {
      hide Retry, NoDuplicates, Members;
      if r !in reqs || reqs[r].app !in table || r !in table[reqs[r].app].requests {
        return;
      }
      var req, cl := reqs[r], clients[reqs[r].client];
      if req.retried || req.bytesRead > 0 || cl.responded || !cl.eof || cl.bodyBytes > 0 || !cl.safe || cl.phase != Registered(r) {
        return;
      }
      RetryRequest(r);
    }

    method DropIdle(a: AppId)
      requires Valid()
      modifies this`idleApps
      ensures Valid() && View() == old(View()).(idle := old(View()).idle - {a})
    {
      hide NoDuplicates, Members;
      InMembers(idleApps);
      idleApps := RemoveItem(idleApps, a);
      InMembers(idleApps);
    }

    /** waited says that waitpid collected the process, and exited that it exited by itself. */
    method ReapSignalHandler(a: AppId, waited: bool, exited: bool)
      requires Valid() && a in table
      modifies this
      ensures Valid()
      ensures View() == if old(table)[a].pid && waited then Reap(old(View()), a, exited) else old(View())
    {
      hide NoDuplicates, Members;
      if table[a].pid && waited {
        table := table[a := table[a].(exited := exited)];
        DropIdle(a);
        table := table[a := table[a].(destroyed := true, pid := false, reaped := true)];
        PostReaps(table[a].requests);
      }
    }

    /** Tell each request that its app has exited. */
    method PostReaps(requests: set<ReqId>)
      modifies this`reapEvents
      ensures reapEvents == old(reapEvents) + requests
    {
      var todo := requests;
      while todo != {}
        invariant todo <= requests && reapEvents == old(reapEvents) + (requests - todo)
        decreases todo
      {
        var r :| r in todo;
        reapEvents := reapEvents + {r};
        todo := todo - {r};
      }
    }

    method FastMaintenance(expired: set<AppId>)
      requires Valid()
      modifies this`table, this`rest
      ensures Valid()
      ensures (forall a <- Doomed(old(table), idleApps, expired, |apps| + |idleApps|, minApps) :: a in old(table))
              && View() == KillEach(old(View()), Doomed(old(table), idleApps, expired, |apps| + |idleApps|, minApps))
    {
      hide NoDuplicates, Members, KillEach, Kill, Doomed;
      InMembers(idleApps);
      var count := |apps| + |idleApps|;
      var next := 0;
      ghost var done: seq<AppId> := [];
      ghost var start, was := table, View();
      ghost var all := Doomed(start, idleApps, expired, count, minApps);
      KillNone(was);
      assert idleApps[0..] == idleApps;
      while next < |idleApps|
        invariant Valid() && 0 <= next <= |idleApps|
        invariant (forall a <- done :: a in start) && View() == KillEach(was, done)
        invariant all == done + Doomed(start, idleApps[next..], expired, count, minApps)
        invariant forall a :: a in start ==> a in table && (a in idleApps[next..] ==> table[a] == start[a])
      {
        var a := idleApps[next];
        DoomedStep(start, idleApps[next..], expired, count, minApps);
        assert idleApps[next..][1..] == idleApps[next + 1..];
        NextIsNew(idleApps, next);
        var app := table[a];
        var kill := app.pid && app.destroy;
        if app.pid && !app.destroy && a in expired {
          kill := count > minApps;
          count := count - 1;
        }
        if kill {
          KillFastApp(a);
          KillOneMore(was, done, a);
          done := done + [a];
        }
        next := next + 1;
      }
      DoomedNone(start, expired, count, minApps);
      assert all == done;
    }

    method KillApps(list: seq<AppId>)
      requires Valid() && rest.shutdown && forall a <- list :: a in table
      modifies this`table, this`rest
      ensures Valid() && rest == old(rest)
      ensures table == map a | a in old(table) :: if a in list then AfterKill(old(table)[a]) else old(table)[a]
    {
      hide NoDuplicates, Members;
      var next := 0;
      while next < |list|
        invariant Valid() && 0 <= next <= |list| && rest == old(rest) && table.Keys == old(table).Keys
        invariant forall a :: a in table ==>
                    table[a] == if a in list[..next] then AfterKill(old(table)[a]) else old(table)[a]
      {
        assert list[..next + 1] == list[..next] + [list[next]];
        KillFastApp(list[next]);
        next := next + 1;
      }
      assert list[..next] == list;
    }

    method FastTerminator()
      requires Valid()
      modifies this`table, this`rest
      ensures Valid() && View() == KillAll(old(View()))
    {
      hide NoDuplicates, Members;
      InMembers(apps);
      InMembers(idleApps);
      rest := rest.(shutdown := true);
      KillApps(apps);
      KillApps(idleApps);
      assert View() == KillAll(old(View()));
    }
  }

  function AfterKill(app: App): App {
    app.(destroyed := app.destroyed || app.pid)
  }

  // ---- What maintenance does ----

  /** Only idle apps are killed, each marked for destruction or expired. */
  lemma {:induction false} DoomedAreIdle(table: map<AppId, App>, idle: seq<AppId>, expired: set<AppId>, count: int, minApps: int)
    requires forall a <- idle :: a in table
    ensures forall a <- Doomed(table, idle, expired, count, minApps) ::
              a in idle && a in table && table[a].pid && (table[a].destroy || a in expired)
  {
    if idle != [] {
      var app := table[idle[0]];
      var next := if app.pid && !app.destroy && idle[0] in expired then count - 1 else count;
      DoomedAreIdle(table, idle[1..], expired, next, minApps);
    }
  }

  function Expiring(table: map<AppId, App>, apps: seq<AppId>): nat
    requires forall a <- apps :: a in table
  {
    if apps == [] then 0 else (if table[apps[0]].destroy then 0 else 1) + Expiring(table, apps[1..])
  }

  /** Apps are killed for their age only while the count is above the minimum. */
  lemma {:induction false} AgeKillsAreBounded(table: map<AppId, App>, idle: seq<AppId>, expired: set<AppId>, count: int, minApps: int)
    requires forall a <- idle :: a in table
    ensures forall a <- Doomed(table, idle, expired, count, minApps) :: a in table
    ensures var n := Expiring(table, Doomed(table, idle, expired, count, minApps));
            n == 0 || n <= count - minApps
  {
    DoomedAreIdle(table, idle, expired, count, minApps);
    if idle != [] {
      var app := table[idle[0]];
      var next := if app.pid && !app.destroy && idle[0] in expired then count - 1 else count;
      AgeKillsAreBounded(table, idle[1..], expired, next, minApps);
      DoomedAreIdle(table, idle[1..], expired, next, minApps);
      var rest := Doomed(table, idle[1..], expired, next, minApps);
      assert ([idle[0]] + rest)[1..] == rest;
      assert [] + rest == rest;
    }
  }

  /** A maintenance pass is a sequence of Maintain steps, so it keeps the pool's invariant. */
  lemma {:induction false} KillEachKeeps(cfg: Config, p: Pool, apps: seq<AppId>)
    requires Inv(cfg, p) && forall a <- apps :: a in p.table && a in p.idle
    ensures Inv(cfg, KillEach(p, apps)) && KillEach(p, apps).idle == p.idle && KillEach(p, apps).table.Keys == p.table.Keys
  {
    hide Inv;
    if apps != [] {
      var n := |apps| - 1;
      KillEachKeeps(cfg, p, apps[..n]);
      PruneOk(cfg, KillEach(p, apps[..n]), apps[n]);
      KillEffect(KillEach(p, apps[..n]), apps[n]);
    }
  }
}
