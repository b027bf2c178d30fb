/**
  The request loop of the HTTP client (http.c): counting iterations, authentication retries and redirects. What the
  server answers and whether the exchange succeeded are the environment's choice.
 */
module HttpClient {

  /** limit: iterations, or files to send. concurrent: more than one thread or stream. */
  datatype Config = Config(limit: int, maxRetries: int, maxFollow: int, concurrent: bool, continueOnErrors: bool)

  /** What the content state of an exchange shows, if it gets there. A redirect may have an unusable URL. */
  datatype Answer = NoContent | Plain | Challenge | Redirect(valid: bool)

  /** redirect: the next exchange goes to a redirect's target. */
  datatype Client = Client(count: int, follow: int, retries: int, retrying: bool, redirect: bool, finished: bool)

  const BEGIN := Client(0, 0, 0, false, false, false)

  datatype Exchange = Exchange(answer: Answer, success: bool)

  function Max(a: int, b: int): int {
    if a < b then b else a
  }

  /** checkRequestState in the content state. */
  function Content(cfg: Config, s: Client, a: Answer): Client {
    match a
    case NoContent => s
    case Plain => s.(retries := 0, follow := 0)
    case Challenge =>
      var t := s.(retries := s.retries + 1);
      if t.retries > Max(cfg.maxRetries, 1) then t else t.(retrying := true, follow := 0, count := t.count - 1)
    case Redirect(valid) =>
      if cfg.concurrent then s
      else if !valid then s.(redirect := false)
      else
        var t := s.(redirect := true, follow := s.follow + 1);
        if t.follow >= cfg.maxFollow then t else t.(count := t.count - 1)
  }

  /** notifier when the exchange is done. */
  function Done(cfg: Config, s: Client, success: bool): Client {
    var t := s.(count := s.count + 1);
    if s.retrying then t.(retrying := false, finished := false)
    else t.(finished := t.count >= cfg.limit || (!success && !cfg.continueOnErrors))
  }

  /** One exchange: startRequest uses up the redirect, then the content state, then the end. */
  function Next(cfg: Config, s: Client, e: Exchange): Client {
    Done(cfg, Content(cfg, s.(redirect := false), e.answer), e.success)
  }

  function Run(cfg: Config, s: Client, es: seq<Exchange>): Client
    decreases |es|
  {
    if es == [] then s else Run(cfg, Next(cfg, s, es[0]), es[1..])
  }

  /** The client makes every exchange of es: it has not finished before the last one. */
  predicate Makes(cfg: Config, s: Client, es: seq<Exchange>)
    decreases |es|
  {
    es == [] || (!s.finished && Makes(cfg, Next(cfg, s, es[0]), es[1..]))
  }

  // ---- The measure ----

  function Retries(cfg: Config): nat {
    Max(cfg.maxRetries, 1)
  }

  function Follows(cfg: Config): nat {
    Max(cfg.maxFollow, 1)
  }

  function Iterations(cfg: Config): nat {
    Max(cfg.limit, 1)
  }

  function Left(bound: int, used: int): nat {
    Max(bound - used, 0)
  }

  /** Remaining iterations, retries and redirects. */
  function Measure(cfg: Config, s: Client): (nat, nat, nat) {
    (Left(Iterations(cfg), s.count), Left(Retries(cfg), s.retries), Left(Follows(cfg) - 1, s.follow))
  }

  /** The exchanges a client may still make. */
  function Remaining(cfg: Config, s: Client): int {
    (Iterations(cfg) - 1 - s.count) * ((Retries(cfg) + 1) * Follows(cfg))
    + Left(Retries(cfg), s.retries) * Follows(cfg) + Left(Follows(cfg) - 1, s.follow) + 1
  }

  /** Between exchanges no retry is pending, and a client that goes on has iterations left. */
  predicate Between(cfg: Config, s: Client) {
    !s.retrying && s.follow >= 0 && s.retries >= 0 && s.count >= 0 && (!s.finished ==> s.count < Iterations(cfg))
  }

  lemma Lexicographic(cfg: Config, s: Client, e: Exchange)
    requires Between(cfg, s) && !s.finished
    ensures var t := Next(cfg, s, e);
            && Between(cfg, t)
            && (!t.finished ==>
                  var (a, b, c) := Measure(cfg, s);
                  var (a', b', c') := Measure(cfg, t);
                  a' < a || (a' == a && (b' < b || (b' == b && c' < c))))
  {
  }

  /** An exchange that does not finish leaves at most one fewer to make. */
  lemma RemainingDrops(cfg: Config, s: Client, e: Exchange)
    requires Between(cfg, s) && !s.finished && !Next(cfg, s, e).finished
    ensures 1 <= Remaining(cfg, Next(cfg, s, e)) < Remaining(cfg, s)
  {
    var t := Next(cfg, s, e);
    Lexicographic(cfg, s, e);
    var n, r, f := Iterations(cfg), Retries(cfg), Follows(cfg);
    var w := (r + 1) * f;
    var (a, b, c) := Measure(cfg, s);
    var (a', b', c') := Measure(cfg, t);
    assert b' <= r && c' <= f - 1 && b <= r && c <= f - 1;
    assert Remaining(cfg, s) == (a - 1) * w + b * f + c + 1;
    assert Remaining(cfg, t) == (a' - 1) * w + b' * f + c' + 1;
    Weighted(r, f, a, b, c, a', b', c');
  }

  lemma TimesGrows(x: int, y: int, k: nat)
    requires x <= y
    ensures x * k <= y * k
  {
  }

  lemma TimesNext(x: int, k: int)
    ensures (x + 1) * k == x * k + k
  {
  }

  lemma ZeroTimes(x: int, k: int)
    requires x == 0
    ensures x * k == 0
  {
  }

  /** A lexicographic descent is a descent of the weighted sum. */
  lemma Weighted(r: nat, f: nat, a: nat, b: nat, c: nat, a': nat, b': nat, c': nat)
    requires f >= 1 && a' >= 1 && b' <= r && c' <= f - 1
    requires a' < a || (a' == a && (b' < b || (b' == b && c' < c)))
    ensures 1 <= (a' - 1) * ((r + 1) * f) + b' * f + c' + 1 < (a - 1) * ((r + 1) * f) + b * f + c + 1
  {
    TimesNext(r, f);
    var w := (r + 1) * f;
    TimesGrows(0, a' - 1, w);
    TimesGrows(0, b', f);
    TimesGrows(b', r, f);
    TimesGrows(0, b, f);
    if a' < a {
      TimesGrows(a', a - 1, w);
      TimesNext(a' - 1, w);
    } else if b' < b {
      TimesGrows(b' + 1, b, f);
      TimesNext(b', f);
    }
  }

  /** The client stops: whatever the server does, it makes at most this many exchanges. */
  lemma {:induction false} AtMostRemaining(cfg: Config, s: Client, es: seq<Exchange>)
    requires Between(cfg, s) && !s.finished && Makes(cfg, s, es)
    ensures |es| <= Remaining(cfg, s)
    decreases |es|
  {
    var w := (Retries(cfg) + 1) * Follows(cfg);
    assert (Iterations(cfg) - 1 - s.count) * w >= 0;
    assert Left(Retries(cfg), s.retries) * Follows(cfg) >= 0;
    if es != [] {
      var t := Next(cfg, s, es[0]);
      Lexicographic(cfg, s, es[0]);
      if t.finished {
        assert es[1..] == [];
      } else {
        RemainingDrops(cfg, s, es[0]);
        AtMostRemaining(cfg, t, es[1..]);
      }
    }
  }

  function Bound(cfg: Config): nat {
    Iterations(cfg) * ((Retries(cfg) + 1) * Follows(cfg))
  }

  lemma RemainingAtBegin(cfg: Config)
    ensures Remaining(cfg, BEGIN) == Bound(cfg)
  {
    var r, f, n := Retries(cfg), Follows(cfg), Iterations(cfg);
    TimesNext(r, f);
    TimesNext(n - 1, (r + 1) * f);
  }

  lemma ClientTerminates(cfg: Config, es: seq<Exchange>)
    requires Makes(cfg, BEGIN, es)
    ensures |es| <= Bound(cfg)
  {
    AtMostRemaining(cfg, BEGIN, es);
    RemainingAtBegin(cfg);
  }

  // ---- The bound is reached ----

  /** A server that redirects while it is followed, then challenges while retries are left, then answers. */
  function Worst(cfg: Config, s: Client): Exchange {
    if s.follow + 1 < cfg.maxFollow then Exchange(Redirect(true), true)
    else if s.retries < Retries(cfg) then Exchange(Challenge, true)
    else Exchange(Plain, true)
  }

  function WorstRun(cfg: Config, s: Client, n: nat): seq<Exchange>
    decreases n
  {
    if n == 0 then [] else [Worst(cfg, s)] + WorstRun(cfg, Next(cfg, s, Worst(cfg, s)), n - 1)
  }

  /** Within the limits of retries and redirects, as after every answer of that server. */
  predicate WithinLimits(cfg: Config, s: Client) {
    Between(cfg, s) && s.retries <= Retries(cfg) && s.follow <= Follows(cfg) - 1
  }

  /** The weighted sum of what is left, by its three parts. */
  lemma RemainingIs(cfg: Config, s: Client, iterations: int, retries: nat, follows: nat)
    requires iterations == Iterations(cfg) - s.count && retries == Left(Retries(cfg), s.retries)
    requires follows == Left(Follows(cfg) - 1, s.follow)
    ensures Remaining(cfg, s) == (iterations - 1) * ((Retries(cfg) + 1) * Follows(cfg)) + retries * Follows(cfg) + follows + 1
  {
  }

  /** That server costs the client exactly one exchange each time, and the client finishes only on its last one. */
  lemma WorstStep(cfg: Config, s: Client)
    requires WithinLimits(cfg, s) && !s.finished && !cfg.concurrent && cfg.limit >= 1
    ensures var t := Next(cfg, s, Worst(cfg, s));
            && WithinLimits(cfg, t)
            && (t.finished ==> Remaining(cfg, s) == 1)
            && (!t.finished ==> Remaining(cfg, t) == Remaining(cfg, s) - 1)
  {
    var t := Next(cfg, s, Worst(cfg, s));
    var r, f := Retries(cfg), Follows(cfg);
    var a, b, c := cfg.limit - s.count, r - s.retries, f - 1 - s.follow;
    RemainingIs(cfg, s, a, b, c);
    RemainingIs(cfg, t, cfg.limit - t.count, r - t.retries, f - 1 - t.follow);
    hide Remaining;
    if c == 0 && b > 0 {
      TimesNext(b - 1, f);
    } else if c == 0 {
      ZeroTimes(b, f);
      if t.finished {
        ZeroTimes(a - 1, (r + 1) * f);
      } else {
        TimesNext(a - 2, (r + 1) * f);
        TimesNext(r, f);
      }
    }
  }

  lemma {:induction false} WorstIsMade(cfg: Config, s: Client)
    requires WithinLimits(cfg, s) && !s.finished && !cfg.concurrent && cfg.limit >= 1
    ensures Remaining(cfg, s) >= 1
    ensures Makes(cfg, s, WorstRun(cfg, s, Remaining(cfg, s))) && |WorstRun(cfg, s, Remaining(cfg, s))| == Remaining(cfg, s)
    decreases Remaining(cfg, s)
  {
    hide Next, Worst;
    RemainingPositive(cfg, s);
    WorstStep(cfg, s);
    var t := Next(cfg, s, Worst(cfg, s));
    if !t.finished {
      WorstIsMade(cfg, t);
    }
  }

  lemma RemainingPositive(cfg: Config, s: Client)
    requires Between(cfg, s) && !s.finished
    ensures Remaining(cfg, s) >= 1
  {
    TimesGrows(0, Iterations(cfg) - 1 - s.count, (Retries(cfg) + 1) * Follows(cfg));
    TimesGrows(0, Left(Retries(cfg), s.retries), Follows(cfg));
  }

  /** For every single-stream client with something to send there is a server that makes it use the whole bound. */
  lemma BoundIsReached(cfg: Config)
    requires !cfg.concurrent && cfg.limit >= 1
    ensures Makes(cfg, BEGIN, WorstRun(cfg, BEGIN, Bound(cfg))) && |WorstRun(cfg, BEGIN, Bound(cfg))| == Bound(cfg)
  {
    RemainingAtBegin(cfg);
    WorstIsMade(cfg, BEGIN);
  }

  // ---- What an exchange comes to ----

  /** A challenge that is answered: as many in a row as there are retries, and one in any case. */
  predicate Retried(cfg: Config, s: Client, e: Exchange) {
    e.answer.Challenge? && (s.retries < cfg.maxRetries || s.retries < 1)
  }

  /** A redirect that is followed without counting as an iteration. */
  predicate Followed(cfg: Config, s: Client, e: Exchange) {
    e.answer == Redirect(true) && !cfg.concurrent && s.follow + 1 < cfg.maxFollow
  }

  /**
    One exchange, field by field. A retried challenge always starts the request again; otherwise the client stops at
    its limit, or after a failed exchange unless it is to go on after errors. A retried challenge and a followed
    redirect do not count as iterations; an ordinary answer clears both counters.
   */
  lemma ExchangeExactly(cfg: Config, s: Client, e: Exchange)
    requires Between(cfg, s)
    ensures var t := Next(cfg, s, e);
            && !t.retrying
            && t.count == s.count + (if Retried(cfg, s, e) || Followed(cfg, s, e) then 0 else 1)
            && t.retries == (if e.answer.Plain? then 0 else if e.answer.Challenge? then s.retries + 1 else s.retries)
            && t.follow == (if e.answer.Plain? || Retried(cfg, s, e) then 0
                            else if e.answer == Redirect(true) && !cfg.concurrent then s.follow + 1 else s.follow)
            && (t.finished <==> !Retried(cfg, s, e) && (t.count >= cfg.limit || (!e.success && !cfg.continueOnErrors)))
  {
  }

  // ---- What an exchange goes to ----

  /** The next exchange goes to a redirect's target exactly when this one was a usable redirect of a single stream. */
  lemma RedirectIsFollowed(cfg: Config, s: Client, e: Exchange)
    ensures Next(cfg, s, e).redirect <==> e.answer == Redirect(true) && !cfg.concurrent
  {
  }

  /** A redirect too many counts as an iteration, but its target is still where the next exchange goes. */
  lemma RedirectTooMany(cfg: Config, s: Client, success: bool)
    requires Between(cfg, s) && !cfg.concurrent && s.follow + 1 >= cfg.maxFollow
    ensures var t := Next(cfg, s, Exchange(Redirect(true), success)); t.count == s.count + 1 && t.redirect
  {
  }

  // ---- The request in place ----

  class Request {
    var count: int
    var follow: int
    var retries: int
    var retrying: bool
    var redirect: bool
    var finished: bool
    const cfg: Config

    constructor (cfg: Config)
      ensures View() == BEGIN && this.cfg == cfg
    {
      this.cfg := cfg;
      count, follow, retries, retrying, redirect, finished := 0, 0, 0, false, false, false;
    }

    ghost function View(): Client
      reads this
    {
      Client(count, follow, retries, retrying, redirect, finished)
    }

    /** startRequest. */
    method StartRequest()
      modifies this`redirect
      ensures View() == old(View()).(redirect := false)
    {
      redirect := false;
    }

    /** ok: no error was raised. */
    method CheckRequestState(answer: Answer) returns (ok: bool)
      modifies this
      ensures View() == Content(cfg, old(View()), answer)
      ensures ok <==> answer.NoContent? || answer.Plain? || count == old(count) - 1
    {
      match answer {
        case NoContent => return true;
        case Plain =>
          retries, follow := 0, 0;
          return true;
        case Redirect(valid) =>
          if cfg.concurrent {
            return false;
          }
          redirect := valid;
          if !valid {
            return false;
          }
          follow := follow + 1;
          if follow >= cfg.maxFollow {
            return false;
          }
        case Challenge =>
          retries := retries + 1;
          if retries > Max(cfg.maxRetries, 1) {
            return false;
          }
          retrying, follow := true, 0;
      }
      count := count - 1;
      return true;
    }

    /** HTTP_EVENT_DONE: start again or finish. */
    method NotifyDone(success: bool)
      modifies this
      ensures View() == Done(cfg, old(View()), success)
    {
      count := count + 1;
      if retrying {
        retrying := false;
        finished := false;
      } else {
        finished := count >= cfg.limit || (!success && !cfg.continueOnErrors);
      }
    }

    method MakeExchange(e: Exchange)
      modifies this
      ensures View() == Next(cfg, old(View()), e)
    {
      StartRequest();
      var ok := CheckRequestState(e.answer);
      NotifyDone(e.success);
    }
  }
}
