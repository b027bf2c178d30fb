/**
  The FastCGI app pool (fastHandler.c) as atomic steps: what each section under lock(fast) does to the active and
  idle lists, the apps, their registered requests, and the events posted to requests. Any interleaving of the steps
  is a run. Choices of the environment (a socket connects or not, a process exits) are parameters of the steps.
 */
module FastPool {

  type AppId = nat
  type ReqId = nat
  type ClientId = nat

  const MAX_ID: int := 0x10000
  const MAXINT64: int := 0x7fff_ffff_ffff_ffff

  datatype Config = Config(maxApps: nat, multiplex: nat, maxRequests: int)

  /** pid: launched and not yet reaped. exited: an exit status was collected. reaped: the reaper has run for it. */
  datatype App = App(pid: bool, destroy: bool, destroyed: bool, exited: bool, noexec: bool, reaped: bool,
                     inUse: int, nextID: int, requests: set<ReqId>)

  datatype Req = Req(client: ClientId, app: AppId, bytesRead: nat, retried: bool)

  /**
    Where one client open is. retry counts the attempts inside connectFastRequest; second says that
    retryFastRequest called it.
   */
  datatype Phase =
    | Selecting(retry: nat, second: bool)
    | Connecting(app: AppId, retry: nat, second: bool)
    | Registered(req: ReqId)
    | Finished

  /** sent, acquired, released and silent are history: the requests registered, the getFastApp and releaseFastApp
      calls, and whether nothing had been responded when the request was sent again. */
  datatype Client = Client(phase: Phase, safe: bool, bodyBytes: nat, eof: bool, responded: bool,
                           sent: seq<ReqId>, acquired: nat, released: nat, silent: bool)

  /** killedBusy is history: killFastApp was applied outside shutdown to an app with registered requests. */
  datatype Pool = Pool(active: set<AppId>, idle: set<AppId>, table: map<AppId, App>, reqs: map<ReqId, Req>,
                       clients: map<ClientId, Client>, reapPosted: set<ReqId>, commsPosted: set<ReqId>,
                       shutdown: bool, killedBusy: bool)

  const EMPTY := Pool({}, {}, map[], map[], map[], {}, {}, false, false)

  predicate Usable(app: App) {
    !app.destroy && !app.destroyed
  }

  ghost function Reusable(p: Pool): set<AppId> {
    set a | a in p.idle && a in p.table && Usable(p.table[a])
  }

  predicate IsRegistered(p: Pool, r: ReqId) {
    r in p.reqs && p.reqs[r].app in p.table && r in p.table[p.reqs[r].app].requests
  }

  // ---- The locked sections ----

  function SetApp(p: Pool, a: AppId, app: App): Pool {
    p.(table := p.table[a := app])
  }

  function SetClient(p: Pool, c: ClientId, cl: Client): Pool {
    p.(clients := p.clients[c := cl])
  }

  /** The end of getFastApp: the app is active and selected once more. */
  function Acquire(p: Pool, a: AppId): Pool
    requires a in p.table
  {
    SetApp(p, a, p.table[a].(inUse := p.table[a].inUse + 1)).(active := p.active + {a}, idle := p.idle - {a})
  }

  function MarkDestroy(p: Pool, a: AppId): Pool
    requires a in p.table
  {
    SetApp(p, a, p.table[a].(destroy := true))
  }

  /** killFastApp. */
  function Kill(p: Pool, a: AppId): Pool
    requires a in p.table
  {
    var app := p.table[a];
    if !app.pid then p
    else SetApp(p, a, app.(destroyed := true)).(killedBusy := p.killedBusy || (app.requests != {} && !p.shutdown))
  }

  /** The use count and the request limit in releaseFastApp. */
  function Unuse(cfg: Config, app: App): App {
    var n := app.inUse - 1;
    var worn := n <= 0 && app.pid && cfg.maxRequests < MAXINT64 && app.nextID >= cfg.maxRequests;
    app.(inUse := n, destroy := app.destroy || worn)
  }

  /** The end of releaseFastApp for an app that nothing uses any more: it is retired or becomes idle. */
  function Settle(p: Pool, a: AppId): Pool
    requires a in p.table
  {
    var q := if p.table[a].destroy then Kill(p, a) else p;
    if Usable(q.table[a]) then q.(idle := q.idle + {a}) else q
  }

  /** releaseFastApp. */
  function Release(cfg: Config, p: Pool, a: AppId): Pool
    requires a in p.table
  {
    var app := Unuse(cfg, p.table[a]);
    if app.inUse > 0 then SetApp(p, a, app) else Settle(SetApp(p, a, app).(active := p.active - {a}), a)
  }

  /** getFastApp succeeds for client c. */
  function Pick(p: Pool, c: ClientId, a: AppId): Pool
    requires a in p.table && c in p.clients && p.clients[c].phase.Selecting?
  {
    var cl := p.clients[c];
    SetClient(Acquire(p, a), c, cl.(phase := Connecting(a, cl.phase.retry, cl.phase.second), acquired := cl.acquired + 1))
  }

  /** startFastApp: a launched app, one whose program could not be executed, or one that is not launched here. */
  function StartedApp(pid: bool, noexec: bool): App {
    App(pid && !noexec, false, noexec, false, noexec, false, 0, 1, {})
  }

  /** The request ID counter of allocFastRequest: an ID is never 0 modulo MAX_ID. */
  function AfterId(nextID: int): int {
    var n := if nextID >= MAXINT64 then 1 else nextID;
    if n % MAX_ID == 0 then n + 2 else n + 1
  }

  /** The locked part of connectFastRequest with a connected socket and a live app. */
  function Register(p: Pool, c: ClientId, r: ReqId): Pool
    requires c in p.clients && p.clients[c].phase.Connecting? && p.clients[c].phase.app in p.table
  {
    var cl := p.clients[c];
    var a := cl.phase.app;
    var app := p.table[a];
    SetClient(SetApp(p, a, app.(requests := app.requests + {r}, nextID := AfterId(app.nextID))), c,
              cl.(phase := Registered(r), sent := cl.sent + [r]))
      .(reqs := p.reqs[r := Req(c, a, 0, cl.phase.second)])
  }

  predicate HasExited(app: App) {
    app.destroyed || app.exited
  }

  /** A client without a socket, or with an app that has exited: such an app is given up for another once. */
  function AfterFailure(cl: Client, app: App): Client
    requires cl.phase.Connecting?
  {
    var again := cl.phase.retry == 0 && !app.noexec && HasExited(app);
    cl.(phase := if again then Selecting(1, cl.phase.second) else Finished, released := cl.released + 1)
  }

  /** The locked part of connectFastRequest without a socket, or with an app that has exited. */
  function ConnectFails(cfg: Config, p: Pool, c: ClientId): Pool
    requires c in p.clients && p.clients[c].phase.Connecting? && p.clients[c].phase.app in p.table
  {
    var cl := p.clients[c];
    var a := cl.phase.app;
    var q := SetClient(p, c, AfterFailure(cl, p.table[a]));
    Release(cfg, if HasExited(p.table[a]) then MarkDestroy(q, a) else q, a)
  }

  /** The request leaves its app, and its client goes on as cl. */
  function Drop(p: Pool, r: ReqId, cl: Client): Pool
    requires r in p.reqs && p.reqs[r].app in p.table
  {
    var a := p.reqs[r].app;
    var app := p.table[a];
    SetClient(SetApp(p, a, app.(requests := app.requests - {r})), p.reqs[r].client, cl)
  }

  /** fastCloseRequest for a request that its client still holds. */
  function Close(cfg: Config, p: Pool, r: ReqId): Pool
    requires r in p.reqs && p.reqs[r].app in p.table && p.reqs[r].client in p.clients
  {
    var cl := p.clients[p.reqs[r].client];
    Release(cfg, Drop(p, r, cl.(phase := Finished, released := cl.released + 1)), p.reqs[r].app)
  }

  /** retryFastRequest's test. */
  predicate MayRetry(p: Pool, r: ReqId)
    requires r in p.reqs && p.reqs[r].client in p.clients
  {
    var req, cl := p.reqs[r], p.clients[p.reqs[r].client];
    !req.retried && req.bytesRead == 0 && !cl.responded && cl.eof && cl.bodyBytes == 0 && cl.safe && cl.phase == Registered(r)
  }

  /** The locked part of retryFastRequest. */
  function Retry(cfg: Config, p: Pool, r: ReqId): Pool
    requires r in p.reqs && p.reqs[r].app in p.table && p.reqs[r].client in p.clients
  {
    var cl := p.clients[p.reqs[r].client];
    var q := MarkDestroy(p, p.reqs[r].app);
    Release(cfg, Drop(q, r, cl.(phase := Selecting(0, true), released := cl.released + 1, silent := !cl.responded)), p.reqs[r].app)
  }

  /**
    fastHandlerLost: nothing for a request that is no longer registered, else a retry. Without a retry the client
    gets an error response, which the pool does not see.
   */
  function Lost(cfg: Config, p: Pool, r: ReqId): Pool
    requires IsRegistered(p, r) ==> p.reqs[r].client in p.clients
  {
    if IsRegistered(p, r) && MayRetry(p, r) then Retry(cfg, p, r) else p
  }

  /** reapSignalHandler for an app whose process has exited: tell every registered request. */
  function Reap(p: Pool, a: AppId, status: bool): Pool
    requires a in p.table
  {
    var app := p.table[a];
    SetApp(p, a, app.(exited := status, destroyed := true, pid := false, reaped := true))
      .(idle := p.idle - {a}, reapPosted := p.reapPosted + app.requests)
  }

  /** fastTerminator. */
  function KillAll(p: Pool): Pool {
    p.(table := map a | a in p.table :: if p.table[a].pid && (a in p.active || a in p.idle)
                                        then p.table[a].(destroyed := true) else p.table[a],
       shutdown := true)
  }

  /** A failed write retires the app and tells every request on it. */
  function WriteFails(p: Pool, a: AppId): Pool
    requires a in p.table
  {
    MarkDestroy(p, a).(commsPosted := p.commsPosted + p.table[a].requests)
  }

  // ---- Steps and runs ----

  datatype Step =
    | Open(client: ClientId, safe: bool)
    | PickIdle(client: ClientId, app: AppId)
    | StartApp(client: ClientId, app: AppId, pid: bool, noexec: bool)
    | PickActive(client: ClientId, app: AppId)
    | GiveUp(client: ClientId)
    | Registers(client: ClientId, req: ReqId)
    | FailsToConnect(client: ClientId)
    | Deliver(req: ReqId)
    | Closes(client: ClientId)
    | Exits(app: AppId, status: bool)
    | Maintain(app: AppId)
    | Shutdown
    | WriteError(req: ReqId)
    | BadRecord(req: ReqId)
    | ReadBytes(req: ReqId, n: nat)
    | ClientBody(client: ClientId, n: nat)
    | ClientEof(client: ClientId)
    | ClientResponds(client: ClientId)

  predicate SelectingClient(p: Pool, c: ClientId) {
    c in p.clients && p.clients[c].phase.Selecting?
  }

  predicate ConnectingClient(p: Pool, c: ClientId) {
    c in p.clients && p.clients[c].phase.Connecting? && p.clients[c].phase.app in p.table
  }

  /** When each section can run. getFastApp takes a reusable idle app first, then starts one, then shares one. */
  ghost predicate Enabled(cfg: Config, p: Pool, s: Step) {
    match s
    case Open(c, _) => c !in p.clients
    case PickIdle(c, a) => SelectingClient(p, c) && a in Reusable(p) && a in p.table
    case StartApp(c, a, _, _) => SelectingClient(p, c) && a !in p.table && Reusable(p) == {} && |p.active| < cfg.maxApps
    case PickActive(c, a) =>
      SelectingClient(p, c) && Reusable(p) == {} && |p.active| >= cfg.maxApps
      && a in p.active && a in p.table && Usable(p.table[a]) && p.table[a].inUse < cfg.multiplex
    case GiveUp(c) => SelectingClient(p, c)
    case Registers(c, r) => ConnectingClient(p, c) && r !in p.reqs && !HasExited(p.table[p.clients[c].phase.app])
    case FailsToConnect(c) => ConnectingClient(p, c)
    case Deliver(r) => r in p.reapPosted + p.commsPosted && (IsRegistered(p, r) ==> p.reqs[r].client in p.clients)
    case Closes(c) =>
      c in p.clients && p.clients[c].phase.Registered? && IsRegistered(p, p.clients[c].phase.req)
      && p.reqs[p.clients[c].phase.req].client in p.clients
    case Exits(a, _) => a in p.table && p.table[a].pid
    case Maintain(a) => a in p.idle && a in p.table
    case Shutdown => true
    case WriteError(r) => IsRegistered(p, r)
    case BadRecord(r) => IsRegistered(p, r)
    case ReadBytes(r, _) => IsRegistered(p, r)
    case ClientBody(c, _) => c in p.clients && !p.clients[c].eof
    case ClientEof(c) => c in p.clients
    case ClientResponds(c) => c in p.clients
  }

  function NewClient(safe: bool): Client {
    Client(Selecting(0, false), safe, 0, false, false, [], 0, 0, false)
  }

  ghost function Next(cfg: Config, p: Pool, s: Step): Pool
    requires Enabled(cfg, p, s)
  {
    match s
    case Open(c, safe) => SetClient(p, c, NewClient(safe))
    case PickIdle(c, a) => Pick(p, c, a)
    case StartApp(c, a, pid, noexec) => Pick(SetApp(p, a, StartedApp(pid, noexec)), c, a)
    case PickActive(c, a) => Pick(p, c, a)
    case GiveUp(c) => SetClient(p, c, p.clients[c].(phase := Finished))
    case Registers(c, r) => Register(p, c, r)
    case FailsToConnect(c) => ConnectFails(cfg, p, c)
    case Deliver(r) => Lost(cfg, p, r)
    case Closes(c) => Close(cfg, p, p.clients[c].phase.req)
    case Exits(a, status) => Reap(p, a, status)
    case Maintain(a) => Kill(p, a)
    case Shutdown => KillAll(p)
    case WriteError(r) => WriteFails(p, p.reqs[r].app)
    case BadRecord(r) => MarkDestroy(p, p.reqs[r].app)
    case ReadBytes(r, n) => p.(reqs := p.reqs[r := p.reqs[r].(bytesRead := p.reqs[r].bytesRead + n)])
    case ClientBody(c, n) => SetClient(p, c, p.clients[c].(bodyBytes := p.clients[c].bodyBytes + n))
    case ClientEof(c) => SetClient(p, c, p.clients[c].(eof := true))
    case ClientResponds(c) => SetClient(p, c, p.clients[c].(responded := true))
  }

  /** A run is the list of its states, each one step after the last. */
  ghost predicate IsRun(cfg: Config, ps: seq<Pool>, ss: seq<Step>) {
    && |ps| == |ss| + 1 && ps[0] == EMPTY
    && forall i :: 0 <= i < |ss| ==> Enabled(cfg, ps[i], ss[i]) && ps[i + 1] == Next(cfg, ps[i], ss[i])
  }
}
