/** The hypothesis of at-least-once is needed: in every gateway whose pools spill, failing writes to the log lose a
    message whose dispatch returned nil. */
module Losses {
  import opened Bags
  import opened Messages
  import opened WalLog
  import opened Engine
  import opened AtLeastOnce
  import P = Pools
  import WalRuns

  /** A pool that has only been submitted to. */
  ghost predicate Untouched(cfg: P.Config, workers: nat, p: P.Pool<Handle>) {
    !p.closed && |p.queue| <= cfg.capacity && p.workers == P.NewPool<Handle>(workers).workers && p.delivered == []
  }

  /** A gateway that has only dispatched, and written nothing. */
  ghost predicate Quiet(g: Setup, s: State) {
    && |s.pools| == |g.pools| == |g.workers| && s.w == Restart(map[])
    && forall i :: 0 <= i < |s.pools| ==> Untouched(g.pools[i], g.workers[i], s.pools[i])
  }

  ghost predicate Spilling(g: Setup) {
    Proper(g) && forall i :: 0 <= i < |g.pools| ==> g.pools[i].mode.FallbackMode?
  }

  lemma InitQuiet(g: Setup)
    requires Proper(g)
    ensures Quiet(g, Init(g))
  {
  }

  lemma SubmitUntouched(cfg: P.Config, workers: nat, p: P.Pool<Handle>, h: Handle)
    requires Untouched(cfg, workers, p) && cfg.mode.FallbackMode?
    ensures var r := P.Submitted(cfg, p, h, false); r.ok && r.spill.None? && Untouched(cfg, workers, r.pool)
  {
  }

  /** One turn of the fan-out, the write failing if there is one. */
  lemma SubmitQuiet(g: Setup, s: State, t: nat)
    requires Spilling(g) && Quiet(g, s) && t < |s.threads| && s.threads[t].Running?
    requires s.threads[t].k < |FanOf(g, s.threads[t].h.msg)|
    ensures Enabled(g, s, SubmitNext(t, s.next, false))
    ensures var r := Step(g, s, SubmitNext(t, s.next, false)); var th := s.threads[t];
      Quiet(g, r) && r.acked == s.acked && r.threads == s.threads[t := Running(th.h, th.k + 1)]
  {
    var th := s.threads[t];
    var p := FanOf(g, th.h.msg)[th.k];
    SubmitUntouched(g.pools[p], g.workers[p], s.pools[p], Handle(s.next, CopyOf(th.h.msg)));
  }

  /** No crash, no worker's step, nothing but dispatches. */
  ghost predicate OnlyDispatches(evs: seq<Event>) {
    forall i :: 0 <= i < |evs| ==> evs[i].Start? || evs[i].SubmitNext? || evs[i].Return?
  }

  function Times<T>(x: T, n: nat): (r: seq<T>)
    ensures |r| == n
  {
    seq(n, _ => x)
  }

  lemma OneMore<T>(before: seq<T>, x: T, n: nat)
    ensures before + [x] + Times(x, n) == before + Times(x, n + 1)
  {
  }

  /** The rest of a dispatch of `m`, which returns nil, and `n` uploads more. */
  lemma {:induction false} FanRun(g: Setup, s: State, t: nat, u: Message, m: Message, n: nat) returns (evs: seq<Event>)
    requires Spilling(g) && FanOf(g, u) != [] && Piped(g, u) == Some(m)
    requires Quiet(g, s) && t < |s.threads| && s.threads[t].Running? && s.threads[t].h.msg == m
    requires s.threads[t].k <= |FanOf(g, m)|
    ensures IsRun(g, s, evs) && Quiet(g, Run(g, s, evs)) && Run(g, s, evs).acked == s.acked + Times(m, n + 1)
    ensures OnlyDispatches(evs)
    decreases n, 1 + |FanOf(g, m)| - s.threads[t].k
  {
    var ev, rest;
    if s.threads[t].k == |FanOf(g, m)| {
      ev := Return(t);
      rest := UploadsRun(g, Step(g, s, ev), u, m, n);
      OneMore(s.acked, m, n);
    } else {
      ev := SubmitNext(t, s.next, false);
      SubmitQuiet(g, s, t);
      rest := FanRun(g, Step(g, s, ev), t, u, m, n);
    }
    RunAfter(g, s, ev, rest);
    evs := [ev] + rest;
  }

  lemma StartQuiet(g: Setup, s: State, u: Message, m: Message)
    requires Quiet(g, s) && FanOf(g, u) != [] && Piped(g, u) == Some(m)
    ensures Enabled(g, s, Start(u, s.next))
    ensures var r := Started(g, s, u, s.next);
      Quiet(g, r) && r.acked == s.acked && r.threads == s.threads + [Running(Handle(s.next, m), 0)]
  {
  }

  /** `n` uploads of `u`, all acknowledged. */
  lemma {:induction false} UploadsRun(g: Setup, s: State, u: Message, m: Message, n: nat) returns (evs: seq<Event>)
    requires Spilling(g) && Quiet(g, s) && FanOf(g, u) != [] && Piped(g, u) == Some(m)
    ensures IsRun(g, s, evs) && Quiet(g, Run(g, s, evs)) && Run(g, s, evs).acked == s.acked + Times(m, n)
    ensures OnlyDispatches(evs)
    decreases n, 0
  {
    if n == 0 {
      evs := [];
      assert s.acked + Times(m, 0) == s.acked;
    } else {
      var ev := Start(u, s.next);
      StartQuiet(g, s, u, m);
      var rest := FanRun(g, Step(g, s, ev), |s.threads|, u, m, n - 1);
      RunAfter(g, s, ev, rest);
      evs := [ev] + rest;
    }
  }

  lemma {:induction false} SumAtMost<T(!new), K(!new)>(xs: seq<T>, f: T -> multiset<K>, k: K)
    requires forall x :: f(x)[k] <= 1
    ensures Sum(xs, f)[k] <= |xs|
  {
    if xs != [] {
      SumAtMost(xs[1..], f, k);
    }
  }

  lemma {:induction false} SumRepeated<T(!new), K(!new)>(x: T, n: nat, f: T -> multiset<K>, k: K)
    requires f(x)[k] == 1
    ensures Sum(Times(x, n), f)[k] == n
  {
    if n != 0 {
      assert Times(x, n)[1..] == Times(x, n - 1);
      SumRepeated(x, n - 1, f, k);
    }
  }

  /** At most the capacity of the pool is anywhere. */
  lemma QuietCount(g: Setup, s: State, q: string, p: nat, e: Envelope)
    requires Quiet(g, s) && p < |s.pools|
    ensures var f := ByHandle(g.codec, q); var pool := s.pools[p];
      (Sum(pool.queue, f) + P.InFlight(pool, f) + Sum(pool.delivered, f) + InLog(g.codec, q, s.w))[e]
        <= g.pools[p].capacity
  {
    var f := ByHandle(g.codec, q);
    SumAtMost(s.pools[p].queue, f, e);
    P.NewWorkers(s.pools[p].workers, f);
    WalRuns.FreshInv(g.codec);
  }

  /** Whatever the pools, capacities, chains and projects of a gateway in fallback mode: there is a run of
      dispatches alone, with failing writes to the log, in which a message of project `q` whose dispatch returned nil
      is in no place where pool `p` or the log could have it. */
  lemma {:induction false} FailingWritesLose(g: Setup, q: string, p: nat, u: Message) returns (evs: seq<Event>)
    requires Spilling(g) && p < |g.pools| && Routed(g, q, p) && u.project == q && Piped(g, u).Some?
    ensures IsRun(g, Init(g), evs) && OnlyDispatches(evs)
    ensures var s := Run(g, Init(g), evs); var f := ByHandle(g.codec, q); p < |s.pools| && var pool := s.pools[p];
      !(Sum(s.acked, ByMessage(g.codec, q))
          <= Sum(pool.queue, f) + P.InFlight(pool, f) + Sum(pool.delivered, f) + InLog(g.codec, q, s.w))
  {
    var m := Piped(g, u).value;
    var e := WireOf(g.codec, m);
    InitQuiet(g);
    evs := UploadsRun(g, Init(g), u, m, g.pools[p].capacity + 1);
    assert [] + Times(m, g.pools[p].capacity + 1) == Times(m, g.pools[p].capacity + 1);
    QuietCount(g, Run(g, Init(g), evs), q, p, e);
    SumRepeated(m, g.pools[p].capacity + 1, ByMessage(g.codec, q), e);
  }
}
