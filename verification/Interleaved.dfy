/**
 The network run among other clients: between its steps the server handles any
 requests and uploads of others and any steps of the download workers. What they do
 to the server's state is derived here, not assumed.
 */
module Interleaved {
  import opened Wrappers
  import opened Protocol
  import opened Device
  import opened SessionModel
  import opened SessionRuns
  import opened SessionSafety
  import opened Runs
  import opened Simulation

  /** Some events, with the upload connections that are open when they begin. */
  datatype Interlude = Interlude(conns: map<nat, Conn>, start: nat, events: seq<Event>)

  datatype Acts = Acts(before: Interlude, between: Interlude)

  // ----- what events do to the server -----

  ghost function WorldAfter<H>(srv: Server<H>, w: World<H>, start: nat, events: seq<Event>): (r: World<H>)
    requires ValidServer(srv) && Inv(w.st)
    ensures Inv(r.st)
    decreases |events|
  {
    if events == [] then w else
      NextOk(srv, w, start, events[0]);
      WorldAfter(srv, Next(srv, w, start, events[0]).0, start + 1, events[1..])
  }

  ghost function Play<H>(srv: Server<H>, st: State<H>, act: Interlude): (r: State<H>)
    requires ValidServer(srv) && Inv(st)
    ensures Inv(r)
  {
    WorldAfter(srv, World(st, act.conns), act.start, act.events).st
  }

  // ----- events that do not name the client -----

  /** The event neither requests nor opens anything for `c`. */
  predicate Foreign(e: Event, c: string) {
    match e
    case Rrq(parsed, _) => parsed.clientId != Some(c)
    case WrqOpen(parsed) => parsed.clientId != Some(c)
    case _ => true
  }

  ghost predicate ForeignConns(conns: map<nat, Conn>, c: string) {
    forall o :: o in conns ==> conns[o].request.clientId != Some(c)
  }

  ghost predicate ForeignInterlude(act: Interlude, c: string) {
    ForeignConns(act.conns, c) && forall i :: 0 <= i < |act.events| ==> Foreign(act.events[i], c)
  }

  lemma ForeignStep<H>(srv: Server<H>, w: World<H>, n: nat, e: Event, c: string)
    requires ValidServer(srv) && Inv(w.st) && Foreign(e, c) && ForeignConns(w.conns, c)
    ensures var w' := Next(srv, w, n, e).0; ForeignConns(w'.conns, c) && SameSession(c, w.st, w'.st)
  {
    Untouched(srv, w, n, e, c);
    ConnsStayForeign(srv, w, n, e, c);
  }

  lemma ConnsStayForeign<H>(srv: Server<H>, w: World<H>, n: nat, e: Event, c: string)
    requires ValidServer(srv) && Inv(w.st) && Foreign(e, c) && ForeignConns(w.conns, c)
    ensures ForeignConns(Next(srv, w, n, e).0.conns, c)
  {
  }

  /** However many such events there are, the client's session stays as it is. */
  lemma {:induction false} ForeignEvents<H>(srv: Server<H>, w: World<H>, start: nat, events: seq<Event>, c: string)
    requires ValidServer(srv) && Inv(w.st) && ForeignConns(w.conns, c)
    requires forall i :: 0 <= i < |events| ==> Foreign(events[i], c)
    ensures SameSession(c, w.st, WorldAfter(srv, w, start, events).st)
    decreases |events|
  {
    if events != [] {
      var w' := Next(srv, w, start, events[0]).0;
      NextOk(srv, w, start, events[0]);
      ForeignStep(srv, w, start, events[0], c);
      ForeignEvents(srv, w', start + 1, events[1..], c);
    }
  }

  lemma ForeignPlay<H>(srv: Server<H>, st: State<H>, act: Interlude, c: string)
    requires ValidServer(srv) && Inv(st) && ForeignInterlude(act, c)
    ensures SameSession(c, st, Play(srv, st, act))
  {
    ForeignEvents(srv, World(st, act.conns), act.start, act.events, c);
  }

  // ----- the run -----

  /** What others make of the server's state around one exchange. */
  ghost function OthersBy<H>(u: Setup<H>, net: Net<H>, acts: Acts): (o: Others<H>)
    requires ValidSetup(u) && Inv(net.st)
    ensures Inv(o.before) && Inv(o.between)
  {
    var before := Play(u.srv, net.st, acts.before);
    Others(before, Play(u.srv, Played(u, net.(st := before)).net.st, acts.between))
  }

  /** The network run after `n` exchanges, the server handling `acts(i)` around the `i`th. */
  ghost function AmongAt<H>(u: Setup<H>, st: State<H>, d: Device, first: Parsed, acts: nat -> Acts,
                            draws: nat -> Draw, n: nat): (r: Net<H>)
    requires ValidSetup(u) && Inv(st) && first.clientId == Some(u.clientId) && !IsContinuation(first)
    ensures Inv(r.st)
  {
    if n == 0 then NetStart(u, st, d, first, draws(0)) else
      var net := AmongAt(u, st, d, first, acts, draws, n - 1);
      NetStep(u, net, OthersBy(u, net, acts(n - 1)), draws(n))
  }

  ghost predicate ForeignActs(acts: Acts, c: string) {
    ForeignInterlude(acts.before, c) && ForeignInterlude(acts.between, c)
  }

  lemma AmongStep<H>(u: Setup<H>, net: Net<H>, dir: Direct<H>, acts: Acts, draws: nat -> Draw, n: nat)
    requires ValidSetup(u) && CleanDraws(draws) && Sim(u, net, dir, draws, n) && CleanExchange(dir)
    requires ForeignActs(acts, u.clientId)
    ensures Sim(u, NetStep(u, net, OthersBy(u, net, acts), draws(n + 1)), DirectStep(u, dir, draws(n + 1)), draws,
      n + 1)
  {
    var others := OthersBy(u, net, acts);
    ForeignPlay(u.srv, net.st, acts.before, u.clientId);
    OthersDoNotMatter(u, net, dir, others.before, draws, n);
    ForeignPlay(u.srv, Played(u, net.(st := others.before)).net.st, acts.between, u.clientId);
    StepSim(u, net.(st := others.before), others.between, dir, draws, n);
  }

  ghost predicate CleanAt<H>(u: Setup<H>, d: Device, env: Env, draws: nat -> Draw, n: nat)
    requires HIDDEN <= env.Keys
  {
    CleanExchange(DirectAt(u, d, env, draws, n))
  }

  ghost predicate AmongMatches<H>(u: Setup<H>, st: State<H>, d: Device, first: Parsed, acts: nat -> Acts,
                                  draws: nat -> Draw, n: nat)
    requires Prepared(u, st, d, first, draws)
  {
    Sim(u, AmongAt(u, st, d, first, acts, draws, n), DirectAt(u, d, SessionEnv(u.srv.cfg, first), draws, n), draws, n)
  }

  /**
   Among any requests and uploads of other clients, and any steps of the download
   workers, before each script and before each request, the network run simulates
   the direct run.
   */
  lemma {:induction false} AmongOthersRefines<H>(u: Setup<H>, st: State<H>, d: Device, first: Parsed, acts: nat -> Acts,
                                                 draws: nat -> Draw, n: nat)
    requires Prepared(u, st, d, first, draws)
    requires forall i: nat :: i < n ==> ForeignActs(acts(i), u.clientId)
    requires forall i: nat :: i < n ==> CleanAt(u, d, SessionEnv(u.srv.cfg, first), draws, i)
    ensures AmongMatches(u, st, d, first, acts, draws, n)
    decreases n
  {
    if n == 0 {
      AmongStarts(u, st, d, first, acts, draws);
    } else {
      AmongOthersRefines(u, st, d, first, acts, draws, n - 1);
      assert CleanAt(u, d, SessionEnv(u.srv.cfg, first), draws, n - 1);
      AmongOneMore(u, st, d, first, acts, draws, n - 1, n);
    }
  }

  lemma AmongStarts<H>(u: Setup<H>, st: State<H>, d: Device, first: Parsed, acts: nat -> Acts, draws: nat -> Draw)
    requires Prepared(u, st, d, first, draws)
    ensures AmongMatches(u, st, d, first, acts, draws, 0)
  {
    StartSim(u, st, d, first, draws);
  }

  lemma AmongOneMore<H>(u: Setup<H>, st: State<H>, d: Device, first: Parsed, acts: nat -> Acts,
                        draws: nat -> Draw, n: nat, next: nat)
    requires Prepared(u, st, d, first, draws) && next == n + 1 && ForeignActs(acts(n), u.clientId)
    requires CleanAt(u, d, SessionEnv(u.srv.cfg, first), draws, n) && AmongMatches(u, st, d, first, acts, draws, n)
    ensures AmongMatches(u, st, d, first, acts, draws, next)
  {
    var env := SessionEnv(u.srv.cfg, first);
    DirectAtStep(u, d, env, draws, n);
    AmongAtStep(u, st, d, first, acts, draws, n);
    AmongStep(u, AmongAt(u, st, d, first, acts, draws, n), DirectAt(u, d, env, draws, n), acts(n), draws, n);
  }

  lemma AmongAtStep<H>(u: Setup<H>, st: State<H>, d: Device, first: Parsed, acts: nat -> Acts, draws: nat -> Draw,
                       n: nat)
    requires Prepared(u, st, d, first, draws)
    ensures
      var net := AmongAt(u, st, d, first, acts, draws, n);
      AmongAt(u, st, d, first, acts, draws, n + 1) == NetStep(u, net, OthersBy(u, net, acts(n)), draws(n + 1))
  {
  }

  // ----- alone -----

  const NOTHING := Acts(Interlude(map[], 0, []), Interlude(map[], 0, []))

  /** A client that has the server to itself: only what it reports and runs itself matters. */
  lemma AloneRefines<H>(u: Setup<H>, st: State<H>, d: Device, first: Parsed, draws: nat -> Draw, n: nat)
    requires Prepared(u, st, d, first, draws)
    requires forall i: nat :: i < n ==> CleanAt(u, d, SessionEnv(u.srv.cfg, first), draws, i)
    ensures AmongMatches(u, st, d, first, (i: nat) => NOTHING, draws, n)
  {
    AmongOthersRefines(u, st, d, first, (i: nat) => NOTHING, draws, n);
  }
}
