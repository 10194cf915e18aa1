/** Progress of a worker pool: from every reachable state it can be shut down and drained, one step at a time. */
module Drains {
  import opened Bags
  import opened Pools

  /** Steps a worker still has in front of it, at most. */
  function Rank<T>(w: Worker<T>): nat {
    match w
    case Exited => 0
    case Idle(_) => 1
    case Rejecting(_, _) => 2
    case Sent(_, _) => 2
    case Exhausted(_, _) => 4
    case Trying(_, _, _) => 3
    case Waiting(_, _, _) => 4
    case Got(_, _) => 5
  }

  function Flag(b: bool): nat {
    if b then 0 else 1
  }

  function Distance<T>(p: Pool<T>): nat {
    Flag(p.closed) + Flag(p.cancelled) + Flag(p.channelClosed) + Flag(!p.breaker.probe)
    + 7 * |p.queue| + Total(p.workers, Rank)
  }

  /** Shut down: the channel is closed and empty, every worker has left, and so has the recovery probe. */
  predicate Empty<T>(p: Pool<T>) {
    p.channelClosed && p.queue == [] && !p.breaker.probe && forall i :: 0 <= i < |p.workers| ==> p.workers[i].Exited?
  }

  /** What a worker does next: all sends succeed, no wait is interrupted, `io` says which writes succeed. */
  function NextOf<T>(w: Worker<T>, i: nat, io: T -> bool): Event<T>
    requires !w.Exited?
  {
    match w
    case Idle(_) => Take(i)
    case Got(_, _) => CheckCircuit(i)
    case Trying(_, _, _) => Send(i, SendOk)
    case Waiting(_, _, _) => Backoff(i, false)
    case Exhausted(_, _) => GiveUp(i)
    case Rejecting(m, _) => Reject(i, io(m))
    case Sent(_, _) => Finish(i)
  }

  /** A step of the shutdown itself, or what some worker does next. */
  ghost predicate Proceeds<T>(p: Pool<T>, ev: Event<T>, io: T -> bool) {
    || ev.SetClosed? || ev.Cancel? || ev.CloseChannel? || ev.ProbeStop?
    || (WorkerEvent(ev) && ev.i < |p.workers| && !p.workers[ev.i].Exited?
        && (ev == Exit(ev.i) || ev == NextOf(p.workers[ev.i], ev.i, io)))
  }

  lemma WorkerCloser<T>(cfg: Config, p: Pool<T>, ev: Event<T>, io: T -> bool)
    requires WorkerEvent(ev) && Proceeds(p, ev, io) && Enabled(cfg, p, ev)
    ensures Distance(Apply(cfg, p, ev).pool) < Distance(p)
  {
    WorkedParts(cfg, p, ev);
    TotalUpdate(p.workers, ev.i, After(p, p.workers[ev.i], ev), Rank);
  }

  /** A pool that is not empty yet can always do a step that brings it closer. */
  lemma NextStep<T>(cfg: Config, p: Pool<T>, io: T -> bool) returns (ev: Event<T>)
    requires Sane(cfg, p) && |p.workers| > 0 && !Empty(p)
    ensures Proceeds(p, ev, io) && Enabled(cfg, p, ev) && Distance(Apply(cfg, p, ev).pool) < Distance(p)
  {
    if !p.closed {
      ev := SetClosed;
    } else if !p.cancelled {
      ev := Cancel;
    } else if !p.channelClosed {
      ev := CloseChannel;
    } else if p.breaker.probe {
      ev := ProbeStop;
    } else {
      var i :| 0 <= i < |p.workers| && (!p.workers[i].Exited? || p.queue != []);
      assert WorkerSane(p.workers[i], p.channelClosed && p.queue == []);
      ev := if p.workers[i].Idle? && p.queue == [] then Exit(i) else NextOf(p.workers[i], i, io);
      WorkerCloser(cfg, p, ev, io);
    }
  }

  lemma {:induction false} DrainRun<T>(cfg: Config, p: Pool<T>, io: T -> bool) returns (evs: seq<Event<T>>)
    requires Proper(cfg) && Sane(cfg, p) && |p.workers| > 0
    ensures IsRun(cfg, p, evs) && Empty(Run(cfg, p, evs))
    decreases Distance(p)
  {
    if Empty(p) {
      evs := [];
    } else {
      var ev := NextStep(cfg, p, io);
      ApplySane(cfg, p, ev);
      StepWorkers(cfg, p, ev);
      var rest := DrainRun(cfg, Apply(cfg, p, ev).pool, io);
      RunAfter(cfg, p, ev, rest);
      evs := [ev] + rest;
    }
  }

  lemma StepWorkers<T>(cfg: Config, p: Pool<T>, ev: Event<T>)
    requires Enabled(cfg, p, ev)
    ensures |Apply(cfg, p, ev).pool.workers| == |p.workers|
  {
  }

  /** The drain always gets there: every run of a pool with at least one worker can be continued by one that shuts it
      down, leaves nothing queued, all workers and the probe gone, whatever is queued, in flight or being retried. */
  lemma {:induction false} AlwaysDrains<T(!new)>(cfg: Config, workers: nat, evs: seq<Event<T>>)
    returns (more: seq<Event<T>>)
    requires Proper(cfg) && workers > 0 && IsRun(cfg, NewPool<T>(workers), evs)
    ensures IsRun(cfg, Run(cfg, NewPool<T>(workers), evs), more)
    ensures var r := Run(cfg, Run(cfg, NewPool<T>(workers), evs), more);
      r.channelClosed && r.queue == [] && !r.breaker.probe && forall i :: 0 <= i < |r.workers| ==> r.workers[i].Exited?
  {
    NewPoolKeeps<T, T>(cfg, workers, One);
    RunKeeps(cfg, NewPool<T>(workers), evs, One);
    RunWorkers(cfg, NewPool<T>(workers), evs);
    more := DrainRun(cfg, Run(cfg, NewPool<T>(workers), evs), _ => true);
  }
}
