/**
  The invariant of the app pool, and the parts of a step that keep it: list limits, use counts, registration, exit
  notification, and the history of each client open.
 */
module FastPoolInvariant {
  import opened FastPool

  // ---- The invariant ----

  /** No app is in both lists; active apps are in use up to the multiplex limit, and only they are in use. */
  ghost predicate ListsOk(cfg: Config, p: Pool) {
    && p.active !! p.idle && p.active <= p.table.Keys && p.idle <= p.table.Keys
    && (forall a :: a in p.active ==> 1 <= p.table[a].inUse <= cfg.multiplex)
    && (forall a :: a in p.table && a !in p.active ==> p.table[a].inUse == 0)
  }

  ghost predicate WithinMax(cfg: Config, p: Pool) {
    |p.active| + |Reusable(p)| <= cfg.maxApps
  }

  predicate ConnectsTo(cl: Client, a: AppId) {
    cl.phase.Connecting? && cl.phase.app == a
  }

  ghost function Connectors(clients: map<ClientId, Client>, a: AppId): set<ClientId> {
    set c | c in clients && ConnectsTo(clients[c], a)
  }

  /** An app's use count is its registered requests plus the selections still connecting, plus one for `extra`. */
  ghost predicate Counted(p: Pool, extra: set<AppId>) {
    forall a :: a in p.table ==>
      p.table[a].inUse == |p.table[a].requests| + |Connectors(p.clients, a)| + (if a in extra then 1 else 0)
  }

  ghost predicate RequestLinked(p: Pool, a: AppId, r: ReqId) {
    r in p.reqs && p.reqs[r].app == a && p.reqs[r].client in p.clients && p.clients[p.reqs[r].client].phase == Registered(r)
  }

  ghost predicate ClientLinked(p: Pool, c: ClientId)
    requires c in p.clients
  {
    match p.clients[c].phase
    case Registered(r) => IsRegistered(p, r) && p.reqs[r].client == c
    case Connecting(a, _, _) => a in p.table
    case _ => true
  }

  /** The client that made a request has it in its history. */
  ghost predicate Recorded(p: Pool, r: ReqId)
    requires r in p.reqs
  {
    p.reqs[r].app in p.table && p.reqs[r].client in p.clients && r in p.clients[p.reqs[r].client].sent
  }

  /** Registered requests and registered clients are the same relation, and every request is in its client's history. */
  ghost predicate Linked(p: Pool) {
    && (forall a, r :: a in p.table && r in p.table[a].requests ==> RequestLinked(p, a, r))
    && (forall c :: c in p.clients ==> ClientLinked(p, c))
    && (forall r :: r in p.reqs ==> Recorded(p, r))
  }

  /** An app that has exited was reaped, and every request registered on it has had a reap event posted. */
  ghost predicate ExitsTold(p: Pool) {
    forall a :: a in p.table ==>
      && (p.table[a].reaped ==> p.table[a].destroyed && p.table[a].requests <= p.reapPosted)
      && (p.table[a].exited ==> p.table[a].reaped)
  }

  function Held(phase: Phase): nat {
    if phase.Connecting? || phase.Registered? then 1 else 0
  }

  predicate SecondPhase(phase: Phase) {
    (phase.Selecting? || phase.Connecting?) && phase.second
  }

  /** The first request went unanswered: nothing responded, no bytes read, no body, all input seen, a safe method. */
  predicate Unanswered(p: Pool, cl: Client)
    requires |cl.sent| > 0 && cl.sent[0] in p.reqs
  {
    cl.silent && cl.safe && cl.eof && cl.bodyBytes == 0 && p.reqs[cl.sent[0]].bytesRead == 0
  }

  /** The requests a client open has sent, and when it may have sent a second one. */
  ghost predicate SendsOk(p: Pool, cl: Client) {
    && |cl.sent| <= 2 && (forall r <- cl.sent :: r in p.reqs)
    && (cl.phase.Registered? ==> cl.sent != [] && cl.phase.req == cl.sent[|cl.sent| - 1])
    && (cl.phase.Registered? ==> (p.reqs[cl.phase.req].retried <==> |cl.sent| == 2))
    && (cl.phase.Selecting? || cl.phase.Connecting? ==> |cl.sent| == if cl.phase.second then 1 else 0)
    && (|cl.sent| == 2 || SecondPhase(cl.phase) ==> Unanswered(p, cl) && Retired(p, cl.sent[0]))
    && (SecondPhase(cl.phase) && cl.phase.Connecting? ==> cl.phase.app != p.reqs[cl.sent[0]].app)
    && (|cl.sent| == 2 ==> p.reqs[cl.sent[1]].app != p.reqs[cl.sent[0]].app)
  }

  /** A request that has left an app marked for retirement. */
  ghost predicate Retired(p: Pool, r: ReqId)
    requires r in p.reqs
  {
    p.reqs[r].app in p.table && p.table[p.reqs[r].app].destroy && !IsRegistered(p, r)
  }

  ghost predicate ClientOk(p: Pool, cl: Client) {
    cl.acquired == cl.released + Held(cl.phase) && SendsOk(p, cl)
  }

  ghost predicate ClientsOk(p: Pool) {
    forall c :: c in p.clients ==> ClientOk(p, p.clients[c])
  }

  ghost predicate Inv(cfg: Config, p: Pool) {
    && ListsOk(cfg, p) && WithinMax(cfg, p) && Counted(p, {}) && Linked(p) && ExitsTold(p) && ClientsOk(p)
    && !p.killedBusy
  }

  // ---- Counting selections ----

  lemma SubsetCard<T>(a: set<T>, b: set<T>)
    requires a <= b
    ensures |a| <= |b|
  {
    assert b == a + (b - a);
  }

  lemma ConnectorsAfter(clients: map<ClientId, Client>, c: ClientId, cl: Client, a: AppId)
    ensures Connectors(clients[c := cl], a)
            == if ConnectsTo(cl, a) then Connectors(clients, a) + {c} else Connectors(clients, a) - {c}
  {
  }

  /** One client's change of phase changes the selections of the apps it left and joined. */
  lemma ConnectorCount(clients: map<ClientId, Client>, c: ClientId, cl: Client, a: AppId)
    requires c in clients
    ensures |Connectors(clients[c := cl], a)|
            == |Connectors(clients, a)| - (if ConnectsTo(clients[c], a) then 1 else 0) + (if ConnectsTo(cl, a) then 1 else 0)
  {
    ConnectorsAfter(clients, c, cl, a);
    assert c in Connectors(clients, a) <==> ConnectsTo(clients[c], a);
  }

  /** A client that stops connecting to a leaves one count of a spare. */
  lemma StopsConnecting(p: Pool, c: ClientId, cl: Client)
    requires Counted(p, {}) && c in p.clients && p.clients[c].phase.Connecting? && !cl.phase.Connecting?
    ensures Counted(SetClient(p, c, cl), {p.clients[c].phase.app})
  {
    hide Connectors;
    forall a | a in p.table ensures ConnectsTo(p.clients[c], a) <==> a == p.clients[c].phase.app {
      ConnectorCount(p.clients, c, cl, a);
    }
    forall a | a in p.table {
      ConnectorCount(p.clients, c, cl, a);
    }
  }

  lemma StartsConnecting(p: Pool, c: ClientId, cl: Client)
    requires c in p.clients && !p.clients[c].phase.Connecting? && cl.phase.Connecting? && Counted(p, {cl.phase.app})
    ensures Counted(SetClient(p, c, cl), {})
  {
    hide Connectors;
    forall a | a in p.table {
      ConnectorCount(p.clients, c, cl, a);
    }
  }

  lemma KeepsConnecting(p: Pool, c: ClientId, cl: Client, extra: set<AppId>)
    requires Counted(p, extra)
    requires c in p.clients && !p.clients[c].phase.Connecting? && !cl.phase.Connecting?
    ensures Counted(SetClient(p, c, cl), extra)
  {
    hide Connectors;
    forall a | a in p.table {
      ConnectorCount(p.clients, c, cl, a);
    }
  }

  // ---- Steps that leave requests, phases and use counts alone ----

  /** A client's facts only grow, and it keeps its phase and history. */
  predicate ClientGrows(cl: Client, cl': Client) {
    && cl'.phase == cl.phase && cl'.sent == cl.sent && cl'.acquired == cl.acquired && cl'.released == cl.released
    && cl'.silent == cl.silent && cl'.safe == cl.safe && (cl.eof ==> cl'.eof && cl'.bodyBytes == cl.bodyBytes)
  }

  predicate AppGrows(app: App, app': App) {
    app'.requests == app.requests && (app.destroy ==> app'.destroy) && (app.destroyed ==> app'.destroyed)
  }

  ghost predicate TableGrows(p: Pool, q: Pool) {
    q.table.Keys == p.table.Keys && forall a :: a in p.table ==> AppGrows(p.table[a], q.table[a])
  }

  ghost predicate ClientsGrow(p: Pool, q: Pool) {
    q.clients.Keys == p.clients.Keys && forall c :: c in p.clients ==> ClientGrows(p.clients[c], q.clients[c])
  }

  ghost predicate ReqsGrow(p: Pool, q: Pool) {
    && q.reqs.Keys == p.reqs.Keys
    && forall r :: r in p.reqs ==> q.reqs[r] == p.reqs[r].(bytesRead := q.reqs[r].bytesRead)
                                   && (q.reqs[r].bytesRead == p.reqs[r].bytesRead || IsRegistered(p, r))
  }

  ghost predicate ReapsGrow(p: Pool, q: Pool) {
    && p.reapPosted <= q.reapPosted
    && (forall a :: a in p.table && a in q.table && q.table[a].reaped ==>
         p.table[a].reaped || (q.table[a].destroyed && q.table[a].requests <= q.reapPosted))
    && (forall a :: a in p.table && a in q.table && q.table[a].exited ==>
         q.table[a].reaped || (p.table[a].exited && !p.table[a].reaped))
  }

  /** The step changes no registration and no phase. */
  ghost predicate Quiet(p: Pool, q: Pool) {
    TableGrows(p, q) && ClientsGrow(p, q) && ReqsGrow(p, q) && ReapsGrow(p, q)
  }

  lemma QuietLinked(p: Pool, q: Pool)
    requires Linked(p) && TableGrows(p, q) && ClientsGrow(p, q) && ReqsGrow(p, q)
    ensures Linked(q)
  {
    forall a, r | a in q.table && r in q.table[a].requests ensures RequestLinked(q, a, r) {
      assert AppGrows(p.table[a], q.table[a]) && RequestLinked(p, a, r);
    }
    forall c | c in q.clients ensures ClientLinked(q, c) {
      assert ClientGrows(p.clients[c], q.clients[c]) && ClientLinked(p, c);
      match p.clients[c].phase
      case Registered(r) => assert AppGrows(p.table[p.reqs[r].app], q.table[p.reqs[r].app]);
      case _ =>
    }
    forall r | r in q.reqs ensures Recorded(q, r) {
      assert Recorded(p, r) && ClientGrows(p.clients[p.reqs[r].client], q.clients[q.reqs[r].client]);
    }
  }

  lemma QuietReaps(p: Pool, q: Pool)
    requires ExitsTold(p) && TableGrows(p, q) && ReapsGrow(p, q)
    ensures ExitsTold(q)
  {
    forall a | a in q.table
      ensures q.table[a].reaped ==> q.table[a].destroyed && q.table[a].requests <= q.reapPosted
      ensures q.table[a].exited ==> q.table[a].reaped
    {
      assert AppGrows(p.table[a], q.table[a]);
    }
  }

  lemma QuietCounted(p: Pool, q: Pool, extra: set<AppId>)
    requires Counted(p, extra) && TableGrows(p, q) && ClientsGrow(p, q)
    requires forall a :: a in p.table ==> q.table[a].inUse == p.table[a].inUse
    ensures Counted(q, extra)
  {
    forall a | a in q.table
      ensures q.table[a].inUse == |q.table[a].requests| + |Connectors(q.clients, a)| + (if a in extra then 1 else 0)
    {
      assert AppGrows(p.table[a], q.table[a]);
      forall c | c in p.clients ensures ConnectsTo(q.clients[c], a) <==> ConnectsTo(p.clients[c], a) {
        assert ClientGrows(p.clients[c], q.clients[c]);
      }
      assert Connectors(q.clients, a) == Connectors(p.clients, a);
    }
  }

  // ---- What later states keep of a sent request ----

  /** Requests stay on record; one that left its app stays away and reads nothing more; retired apps stay retired. */
  ghost predicate Later(p: Pool, q: Pool) {
    && (forall r :: r in p.reqs ==> r in q.reqs && q.reqs[r] == p.reqs[r].(bytesRead := q.reqs[r].bytesRead))
    && (forall r :: r in p.reqs && !IsRegistered(p, r) ==> q.reqs[r].bytesRead == p.reqs[r].bytesRead && !IsRegistered(q, r))
    && (forall a :: a in p.table ==> a in q.table && (p.table[a].destroy ==> q.table[a].destroy))
  }

  lemma LaterSends(p: Pool, q: Pool, cl: Client)
    requires Later(p, q) && ClientOk(p, cl)
    ensures ClientOk(q, cl)
  {
  }

  lemma GrownSends(p: Pool, cl: Client, cl': Client)
    requires ClientOk(p, cl) && ClientGrows(cl, cl')
    ensures ClientOk(p, cl')
  {
  }

  lemma QuietIsLater(p: Pool, q: Pool)
    requires TableGrows(p, q) && ReqsGrow(p, q)
    ensures Later(p, q)
  {
    forall r | r in p.reqs && !IsRegistered(p, r) ensures !IsRegistered(q, r) {
      if p.reqs[r].app in p.table {
        assert AppGrows(p.table[p.reqs[r].app], q.table[p.reqs[r].app]);
      }
    }
    forall a | a in p.table ensures a in q.table && (p.table[a].destroy ==> q.table[a].destroy) {
      assert AppGrows(p.table[a], q.table[a]);
    }
  }

  lemma QuietClients(p: Pool, q: Pool)
    requires ClientsOk(p) && TableGrows(p, q) && ClientsGrow(p, q) && ReqsGrow(p, q)
    ensures ClientsOk(q)
  {
    QuietIsLater(p, q);
    hide Later;
    hide ClientOk;
    forall c | c in q.clients ensures ClientOk(q, q.clients[c]) {
      LaterSends(p, q, p.clients[c]);
      GrownSends(q, p.clients[c], q.clients[c]);
    }
  }

  /** One client changes; the others keep what they had. */
  lemma OneClient(p: Pool, q: Pool, c: ClientId, cl: Client)
    requires ClientsOk(p) && Later(p, q) && q.clients == p.clients[c := cl] && ClientOk(q, cl)
    ensures ClientsOk(q)
  {
    hide Later;
    hide ClientOk;
    forall d | d in q.clients ensures ClientOk(q, q.clients[d]) {
      if d != c {
        LaterSends(p, q, p.clients[d]);
      }
    }
  }

  // ---- The lists ----

  /** Steps that share no app out and free none. */
  ghost predicate ListsShrink(p: Pool, q: Pool) {
    && q.active == p.active && q.idle <= p.idle && q.table.Keys == p.table.Keys
    && forall a :: a in p.table ==> q.table[a].inUse == p.table[a].inUse && (Usable(q.table[a]) ==> Usable(p.table[a]))
  }

  lemma ShrunkLists(cfg: Config, p: Pool, q: Pool)
    requires ListsOk(cfg, p) && WithinMax(cfg, p) && ListsShrink(p, q)
    ensures ListsOk(cfg, q) && WithinMax(cfg, q)
  {
    SubsetCard(Reusable(q), Reusable(p));
  }

  /** A quiet step that shares no app out keeps the whole invariant. */
  lemma QuietStep(cfg: Config, p: Pool, q: Pool)
    requires Inv(cfg, p) && Quiet(p, q) && ListsShrink(p, q) && !q.killedBusy
    ensures Inv(cfg, q)
  {
    hide ListsOk, WithinMax, Counted, Linked, ExitsTold, ClientsOk;
    hide TableGrows, ClientsGrow, ReqsGrow, ReapsGrow;
    ShrunkLists(cfg, p, q);
    QuietLinked(p, q);
    QuietReaps(p, q);
    QuietCounted(p, q, {});
    QuietClients(p, q);
  }

  lemma AcquiredLists(cfg: Config, p: Pool, a: AppId)
    requires ListsOk(cfg, p) && WithinMax(cfg, p) && a in p.table && cfg.multiplex >= 1
    requires (a in p.active && p.table[a].inUse < cfg.multiplex)
             || a in Reusable(p)
             || (a !in p.active && a !in p.idle && Reusable(p) == {} && |p.active| < cfg.maxApps)
    ensures ListsOk(cfg, Acquire(p, a)) && WithinMax(cfg, Acquire(p, a))
  {
    var q := Acquire(p, a);
    if a in p.active {
      assert q.active == p.active && Reusable(q) == Reusable(p);
    } else {
      assert Reusable(q) == Reusable(p) - {a};
    }
  }

  lemma KillEffect(p: Pool, a: AppId)
    requires a in p.table
    ensures var q := Kill(p, a);
            && q == p.(table := q.table, killedBusy := q.killedBusy) && q.table.Keys == p.table.Keys
            && (forall b :: b in p.table && b != a ==> q.table[b] == p.table[b])
            && q.table[a] == p.table[a].(destroyed := p.table[a].destroyed || p.table[a].pid)
            && (p.table[a].requests == {} || p.shutdown ==> q.killedBusy == p.killedBusy)
  {
  }

  lemma SettleEffect(p: Pool, a: AppId)
    requires a in p.table
    ensures var q := Settle(p, a);
            && q.table.Keys == p.table.Keys && q.table[a].inUse == p.table[a].inUse && q.active == p.active
            && (forall b :: b in p.table && b != a ==> q.table[b] == p.table[b])
            && AppGrows(p.table[a], q.table[a]) && q.table[a].reaped == p.table[a].reaped && q.table[a].exited == p.table[a].exited
            && q.reqs == p.reqs && q.clients == p.clients && q.reapPosted == p.reapPosted
            && (p.table[a].requests == {} ==> q.killedBusy == p.killedBusy)
            && q.idle == if Usable(q.table[a]) then p.idle + {a} else p.idle
  {
    KillEffect(p, a);
    hide Kill;
  }

  lemma ReleaseEffect(cfg: Config, p: Pool, a: AppId)
    requires a in p.table
    ensures var q := Release(cfg, p, a);
            && q.table.Keys == p.table.Keys && q.table[a].inUse == p.table[a].inUse - 1
            && (forall b :: b in p.table && b != a ==> q.table[b] == p.table[b])
            && AppGrows(p.table[a], q.table[a]) && q.table[a].reaped == p.table[a].reaped && q.table[a].exited == p.table[a].exited
            && q.reqs == p.reqs && q.clients == p.clients && q.reapPosted == p.reapPosted
            && (p.table[a].requests == {} || p.table[a].inUse > 1 ==> q.killedBusy == p.killedBusy)
  {
    hide Settle;
    SettleEffect(SetApp(p, a, Unuse(cfg, p.table[a])).(active := p.active - {a}), a);
  }

  lemma ReleaseLists(cfg: Config, p: Pool, a: AppId)
    requires a in p.table
    ensures var q := Release(cfg, p, a);
            var last := p.table[a].inUse <= 1;
            && q.active == (if last then p.active - {a} else p.active)
            && q.idle == (if last && Usable(q.table[a]) then p.idle + {a} else p.idle)
            && (!last ==> Usable(q.table[a]) == Usable(p.table[a]))
  {
    hide Settle;
    SettleEffect(SetApp(p, a, Unuse(cfg, p.table[a])).(active := p.active - {a}), a);
  }

  lemma ReleasedListsOk(cfg: Config, p: Pool, a: AppId)
    requires ListsOk(cfg, p) && a in p.active && a in p.table
    ensures ListsOk(cfg, Release(cfg, p, a))
  {
    hide Release, Usable;
    ReleaseEffect(cfg, p, a);
    ReleaseLists(cfg, p, a);
  }

  /** The last release of an app frees its place or makes it reusable, never both. */
  lemma ReleasedWithinMax(cfg: Config, p: Pool, a: AppId)
    requires WithinMax(cfg, p) && a in p.active && a in p.table && p.table[a].inUse >= 1
    ensures WithinMax(cfg, Release(cfg, p, a))
  {
    hide Release, Usable, AppGrows;
    var q := Release(cfg, p, a);
    ReleaseEffect(cfg, p, a);
    ReleaseLists(cfg, p, a);
    if p.table[a].inUse == 1 {
      assert Reusable(q) <= Reusable(p) + {a};
      SubsetCard(Reusable(q), Reusable(p) + {a});
    } else {
      assert Reusable(q) == Reusable(p);
    }
  }

  lemma ReleaseQuiet(cfg: Config, p: Pool, a: AppId)
    requires a in p.table
    ensures Quiet(p, Release(cfg, p, a))
  {
    hide Release;
    ReleaseEffect(cfg, p, a);
  }

  lemma ReleaseCounted(cfg: Config, p: Pool, a: AppId)
    requires a in p.table && Counted(p, {a})
    ensures Counted(Release(cfg, p, a), {})
    ensures p.table[a].inUse > 0 && (p.table[a].requests == {} || p.table[a].inUse > 1)
  {
    hide Release;
    ReleaseEffect(cfg, p, a);
  }

  /** releaseFastApp takes back one use: the whole invariant holds again, and no busy app is killed. */
  lemma ReleaseOk(cfg: Config, p: Pool, a: AppId)
    requires ListsOk(cfg, p) && WithinMax(cfg, p) && Counted(p, {a}) && Linked(p) && ExitsTold(p) && ClientsOk(p)
    requires !p.killedBusy && a in p.table
    ensures Inv(cfg, Release(cfg, p, a))
  {
    hide Release, Linked, ExitsTold, ClientsOk, WithinMax, Reusable;
    var q := Release(cfg, p, a);
    ReleaseCounted(cfg, p, a);
    ReleasedListsOk(cfg, p, a);
    ReleasedWithinMax(cfg, p, a);
    ReleaseEffect(cfg, p, a);
    ReleaseQuiet(cfg, p, a);
    hide TableGrows, ClientsGrow, ReqsGrow, ReapsGrow;
    QuietLinked(p, q);
    QuietReaps(p, q);
    QuietClients(p, q);
  }
}
