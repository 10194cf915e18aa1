/** Progress of the engine: from every reachable state it can be shut down in order. */
module Shutdowns {
  import opened Bags
  import opened Codecs
  import opened Messages
  import opened WalLog
  import opened Engine
  import P = Pools
  import D = Drains

  // ---------- an invariant of every run ----------

  predicate Staffed(g: Setup) {
    forall i :: 0 <= i < |g.workers| ==> g.workers[i] > 0
  }

  ghost predicate PoolFit(cfg: P.Config, p: P.Pool<Handle>) {
    P.Sane(cfg, p) && |p.workers| > 0
  }

  ghost predicate PoolsFit(g: Setup, pools: seq<P.Pool<Handle>>) {
    |pools| == |g.pools| == |g.workers| && forall i :: 0 <= i < |pools| ==> PoolFit(g.pools[i], pools[i])
  }

  predicate ThreadFit(g: Setup, t: Thread) {
    t.Running? ==> t.k <= |FanOf(g, t.h.msg)|
  }

  predicate ThreadsFit(g: Setup, threads: seq<Thread>) {
    forall i :: 0 <= i < |threads| ==> ThreadFit(g, threads[i])
  }

  ghost predicate CallFit(g: Setup, s: State) {
    s.call.Some? ==> s.pass.Some? && s.call.value.k <= |FanOf(g, s.call.value.h.msg)|
  }

  /** Pools in order, with workers; dispatches and the callback within their fan-out. */
  ghost predicate Fit(g: Setup, s: State) {
    PoolsFit(g, s.pools) && ThreadsFit(g, s.threads) && CallFit(g, s)
  }

  lemma SubmitFit(cfg: P.Config, p: P.Pool<Handle>, h: Handle, io: bool)
    requires P.Proper(cfg) && PoolFit(cfg, p)
    ensures PoolFit(cfg, P.Submitted(cfg, p, h, io).pool) && PoolFit(cfg, P.SubmittedStrict(cfg, p, h).pool)
  {
    P.ApplySane(cfg, p, P.Submit(h, io));
    P.ApplySane(cfg, p, P.SubmitStrict(h));
  }

  lemma WorkFit(cfg: P.Config, p: P.Pool<Handle>, ev: P.Event<Handle>)
    requires P.Proper(cfg) && PoolFit(cfg, p) && P.Enabled(cfg, p, ev)
    ensures PoolFit(cfg, P.Apply(cfg, p, ev).pool)
  {
    P.ApplySane(cfg, p, ev);
    D.StepWorkers(cfg, p, ev);
  }

  lemma RenewedFit(cfg: P.Config, p: P.Pool<Handle>, workers: nat, lost: seq<Handle>)
    requires P.Proper(cfg) && workers > 0
    ensures PoolFit(cfg, Renewed(p, workers, lost))
  {
  }

  lemma RebornFit(g: Setup, s: State, w: Wal, crash: bool)
    requires Proper(g) && Staffed(g) && |s.pools| == |g.pools|
    ensures Fit(g, Reborn(g, s, w, crash))
  {
    var r := Reborn(g, s, w, crash);
    forall i | 0 <= i < |r.pools| ensures PoolFit(g.pools[i], r.pools[i]) {
      RenewedFit(g.pools[i], s.pools[i], g.workers[i],
                 if crash then s.pools[i].queue + Carried(s.pools[i].workers) else []);
    }
  }

  lemma PoolReplaced(g: Setup, pools: seq<P.Pool<Handle>>, i: nat, p: P.Pool<Handle>)
    requires PoolsFit(g, pools) && i < |pools| && PoolFit(g.pools[i], p)
    ensures PoolsFit(g, pools[i := p])
  {
  }

  lemma ThreadReplaced(g: Setup, threads: seq<Thread>, i: nat, t: Thread)
    requires ThreadsFit(g, threads) && i < |threads| && ThreadFit(g, t)
    ensures ThreadsFit(g, threads[i := t])
  {
  }

  /** What a submit changes. */
  lemma SubmittingParts(g: Setup, s: State, t: nat, r: nat, io: bool, p: nat, res: P.Result<Handle>)
    requires Enabled(g, s, SubmitNext(t, r, io)) && p == FanOf(g, s.threads[t].h.msg)[s.threads[t].k]
    requires var copy := Handle(r, CopyOf(s.threads[t].h.msg));
      res == P.Submitted(g.pools[p], s.pools[p], copy, Logged(g, io, copy.msg))
    ensures var s1 := Submitting(g, s, t, r, io); var th := s.threads[t];
      && s1.pools == s.pools[p := res.pool] && s1.call == s.call && s1.pass == s.pass
      && s1.threads == s.threads[t := if res.ok then Running(th.h, th.k + 1) else Ended]
  {
  }

  lemma SubmittingFit(g: Setup, s: State, t: nat, r: nat, io: bool)
    requires Proper(g) && Fit(g, s) && Enabled(g, s, SubmitNext(t, r, io))
    ensures Fit(g, Submitting(g, s, t, r, io))
  {
    var th := s.threads[t];
    var p := FanOf(g, th.h.msg)[th.k];
    var copy := Handle(r, CopyOf(th.h.msg));
    var res := P.Submitted(g.pools[p], s.pools[p], copy, Logged(g, io, copy.msg));
    SubmittingParts(g, s, t, r, io, p, res);
    SubmitFit(g.pools[p], s.pools[p], copy, Logged(g, io, copy.msg));
    PoolReplaced(g, s.pools, p, res.pool);
    ThreadReplaced(g, s.threads, t, if res.ok then Running(th.h, th.k + 1) else Ended);
  }

  lemma StartedFit(g: Setup, s: State, u: Message, r: nat)
    requires Fit(g, s)
    ensures Fit(g, Started(g, s, u, r))
  {
  }

  lemma WorkedFit(g: Setup, s: State, p: nat, ev: P.Event<Handle>)
    requires Proper(g) && Fit(g, s) && Enabled(g, s, Work(p, ev))
    ensures Fit(g, Step(g, s, Work(p, ev)))
  {
    WorkFit(g.pools[p], s.pools[p], ev);
    PoolReplaced(g, s.pools, p, P.Apply(g.pools[p], s.pools[p], ev).pool);
  }

  lemma DispatchFit(g: Setup, s: State, ev: Event)
    requires Proper(g) && Fit(g, s) && Enabled(g, s, ev) && OfDispatch(ev)
    ensures Fit(g, Step(g, s, ev))
  {
    match ev
    case Start(u, r) => StartedFit(g, s, u, r);
    case SubmitNext(t, r, io) => SubmittingFit(g, s, t, r, io);
    case Return(t) => ThreadReplaced(g, s.threads, t, Ended);
    case Work(p, e) => WorkedFit(g, s, p, e);
  }

  /** What a strict submit changes. */
  lemma StrictParts(g: Setup, s: State, r: nat, p: nat, res: P.Result<Handle>)
    requires Enabled(g, s, StrictNext(r)) && p == FanOf(g, s.call.value.h.msg)[s.call.value.k]
    requires res == P.SubmittedStrict(g.pools[p], s.pools[p], Handle(r, CopyOf(s.call.value.h.msg)))
    ensures var s1 := StrictSubmitting(g, s, r); var c := s.call.value;
      && s1.pools == s.pools[p := res.pool] && s1.threads == s.threads && s1.w == s.w
      && s1.call == (if res.ok then Some(Call(c.h, c.k + 1)) else None) && (res.ok ==> s1.pass == s.pass)
  {
  }

  lemma StrictFit(g: Setup, s: State, r: nat)
    requires Proper(g) && Fit(g, s) && Enabled(g, s, StrictNext(r))
    ensures Fit(g, StrictSubmitting(g, s, r))
  {
    var c := s.call.value;
    var p := FanOf(g, c.h.msg)[c.k];
    var res := P.SubmittedStrict(g.pools[p], s.pools[p], Handle(r, CopyOf(c.h.msg)));
    StrictParts(g, s, r, p, res);
    SubmitFit(g.pools[p], s.pools[p], Handle(r, CopyOf(c.h.msg)), true);
    PoolReplaced(g, s.pools, p, res.pool);
  }

  lemma CallbackFit(g: Setup, s: State, ev: Event)
    requires Proper(g) && Fit(g, s) && Enabled(g, s, ev) && OfCallback(ev)
    ensures Fit(g, Step(g, s, ev))
  {
    if ev.StrictNext? {
      StrictFit(g, s, ev.r);
    }
  }

  lemma StepFit(g: Setup, s: State, ev: Event)
    requires Proper(g) && Staffed(g) && Fit(g, s) && Enabled(g, s, ev)
    ensures Fit(g, Step(g, s, ev))
  {
    if OfDispatch(ev) {
      DispatchFit(g, s, ev);
    } else if OfCallback(ev) {
      CallbackFit(g, s, ev);
    } else {
      match ev
      case Restarted => RebornFit(g, s, Restart(s.w.disk), false);
      case Crashed(k) => RebornFit(g, s, Crash(s.w, k), true);
      case _ =>
    }
  }

  lemma InitFit(g: Setup)
    requires Proper(g) && Staffed(g)
    ensures Fit(g, Init(g))
  {
  }

  lemma {:induction false} RunFit(g: Setup, s: State, evs: seq<Event>)
    requires Proper(g) && Staffed(g) && Fit(g, s) && IsRun(g, s, evs)
    ensures Fit(g, Run(g, s, evs))
    decreases |evs|
  {
    if evs != [] {
      StepFit(g, s, evs[0]);
      RunFit(g, Step(g, s, evs[0]), evs[1..]);
    }
  }

  // ---------- the way to the end ----------

  /** What is left of a dispatch or callback at pool `k` of its fan-out: each submit may queue a message. */
  function Left(g: Setup, m: Message, k: nat): nat {
    1 + 8 * if k <= |FanOf(g, m)| then |FanOf(g, m)| - k else 0
  }

  function OfThread(g: Setup): Thread -> nat {
    (t: Thread) => if t.Running? then Left(g, t.h.msg, t.k) else 0
  }

  function OfCall(g: Setup, call: Option<Call>): nat {
    if call.Some? then Left(g, call.value.h.msg, call.value.k) else 0
  }

  function OfPool(): P.Pool<Handle> -> nat {
    (p: P.Pool<Handle>) => D.Distance(p)
  }

  function Distance(g: Setup, s: State): nat {
    2 * (Total(s.threads, OfThread(g)) + OfCall(g, s.call) + Total(s.pools, OfPool())) + if s.w.open then 1 else 0
  }

  lemma SubmitDistance(cfg: P.Config, p: P.Pool<Handle>, h: Handle, io: bool)
    ensures D.Distance(P.Submitted(cfg, p, h, io).pool) <= D.Distance(p) + 7
    ensures D.Distance(P.SubmittedStrict(cfg, p, h).pool) <= D.Distance(p) + 7
  {
  }

  lemma ThreadCloser(g: Setup, s: State, t: nat) returns (ev: Event)
    requires Proper(g) && Fit(g, s) && t < |s.threads| && s.threads[t].Running?
    ensures Enabled(g, s, ev) && Distance(g, Step(g, s, ev)) < Distance(g, s)
  {
    var th := s.threads[t];
    if th.k == |FanOf(g, th.h.msg)| {
      ev := Return(t);
      TotalUpdate(s.threads, t, Ended, OfThread(g));
    } else {
      ev := SubmitNext(t, s.next, true);
      SubmitCloser(g, s, t);
    }
  }

  lemma SubmitCloser(g: Setup, s: State, t: nat)
    requires Proper(g) && Fit(g, s) && t < |s.threads| && s.threads[t].Running?
    requires s.threads[t].k < |FanOf(g, s.threads[t].h.msg)|
    ensures Enabled(g, s, SubmitNext(t, s.next, true))
    ensures Distance(g, Submitting(g, s, t, s.next, true)) < Distance(g, s)
  {
    var th := s.threads[t];
    var p := FanOf(g, th.h.msg)[th.k];
    var copy := Handle(s.next, CopyOf(th.h.msg));
    var res := P.Submitted(g.pools[p], s.pools[p], copy, Logged(g, true, copy.msg));
    SubmittingParts(g, s, t, s.next, true, p, res);
    SubmitDistance(g.pools[p], s.pools[p], copy, Logged(g, true, copy.msg));
    TotalUpdate(s.pools, p, res.pool, OfPool());
    TotalUpdate(s.threads, t, if res.ok then Running(th.h, th.k + 1) else Ended, OfThread(g));
  }

  lemma CallCloser(g: Setup, s: State) returns (ev: Event)
    requires Proper(g) && Fit(g, s) && s.call.Some?
    ensures Enabled(g, s, ev) && Distance(g, Step(g, s, ev)) < Distance(g, s)
  {
    var c := s.call.value;
    if c.k == |FanOf(g, c.h.msg)| {
      ev := CallReturn;
    } else {
      ev := StrictNext(s.next);
      var p := FanOf(g, c.h.msg)[c.k];
      var copy := Handle(s.next, CopyOf(c.h.msg));
      StrictParts(g, s, s.next, p, P.SubmittedStrict(g.pools[p], s.pools[p], copy));
      SubmitDistance(g.pools[p], s.pools[p], copy, true);
      TotalUpdate(s.pools, p, P.SubmittedStrict(g.pools[p], s.pools[p], copy).pool, OfPool());
    }
  }

  lemma PoolCloser(g: Setup, s: State, p: nat) returns (ev: Event)
    requires Proper(g) && Fit(g, s) && p < |s.pools| && !D.Empty(s.pools[p])
    ensures Enabled(g, s, ev) && Distance(g, Step(g, s, ev)) < Distance(g, s)
  {
    var e := D.NextStep(g.pools[p], s.pools[p], (h: Handle) => Encodable(g.codec, EntryOf(h.msg)));
    ev := Work(p, e);
    TotalUpdate(s.pools, p, P.Apply(g.pools[p], s.pools[p], e).pool, OfPool());
  }

  /** The end of an orderly shutdown, with all pools told to stop. */
  ghost predicate Down(s: State) {
    ShutDown(s) && forall i :: 0 <= i < |s.pools| ==> D.Empty(s.pools[i])
  }

  /** A state that is not down yet has a step that brings it closer: dispatches first, then the callback, the pools,
      and last the log. */
  lemma Closer(g: Setup, s: State) returns (ev: Event)
    requires Proper(g) && Fit(g, s) && !Down(s)
    ensures Enabled(g, s, ev) && Distance(g, Step(g, s, ev)) < Distance(g, s)
  {
    if t :| 0 <= t < |s.threads| && s.threads[t].Running? {
      ev := ThreadCloser(g, s, t);
    } else if s.call.Some? {
      ev := CallCloser(g, s);
    } else if p :| 0 <= p < |s.pools| && !D.Empty(s.pools[p]) {
      ev := PoolCloser(g, s, p);
    } else {
      ev := WalClose;
    }
  }

  lemma {:induction false} DownRun(g: Setup, s: State) returns (evs: seq<Event>)
    requires Proper(g) && Staffed(g) && Fit(g, s)
    ensures IsRun(g, s, evs) && Down(Run(g, s, evs))
    decreases Distance(g, s)
  {
    if Down(s) {
      evs := [];
    } else {
      var ev := Closer(g, s);
      StepFit(g, s, ev);
      var rest := DownRun(g, Step(g, s, ev));
      RunAfter(g, s, ev, rest);
      evs := [ev] + rest;
    }
  }

  /** Every run of a gateway with workers, however many dispatches, retries and replays are under way and whatever is
      queued, can be continued to the end of an orderly shutdown. */
  lemma {:induction false} AlwaysShutsDown(g: Setup, evs: seq<Event>) returns (more: seq<Event>)
    requires Proper(g) && Staffed(g) && IsRun(g, Init(g), evs)
    ensures IsRun(g, Run(g, Init(g), evs), more)
    ensures var s := Run(g, Run(g, Init(g), evs), more);
      && (forall i :: 0 <= i < |s.threads| ==> s.threads[i].Ended?) && s.call.None? && !s.w.open
      && (forall i :: 0 <= i < |s.pools| ==>
            s.pools[i].channelClosed && s.pools[i].queue == [] && !s.pools[i].breaker.probe)
      && (forall i, j :: 0 <= i < |s.pools| && 0 <= j < |s.pools[i].workers| ==> s.pools[i].workers[j].Exited?)
      && Enabled(g, s, Restarted)
  {
    InitFit(g);
    RunFit(g, Init(g), evs);
    more := DownRun(g, Run(g, Init(g), evs));
    RunFit(g, Run(g, Init(g), evs), more);
  }

  /** The pools of the next process start from scratch, whatever state the circuits of the last one were in; what a
      crash takes with it is on record. */
  lemma RestartIsFresh(g: Setup, s: State, w: Wal, crash: bool, i: nat)
    requires |g.workers| == |s.pools| && i < |s.pools|
    ensures var p := Reborn(g, s, w, crash).pools[i]; var was := s.pools[i];
      && p.(taken := [], strict := [], delivered := [], spilled := [], lost := []) == P.NewPool<Handle>(g.workers[i])
      && p.taken == was.taken && p.strict == was.strict && p.delivered == was.delivered && p.spilled == was.spilled
      && p.lost == was.lost + if crash then was.queue + Carried(was.workers) else []
  {
    assert s.pools[i].lost + [] == s.pools[i].lost;
  }
}
