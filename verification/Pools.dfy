/** A worker pool as a step machine: bounded channel, workers, three-try send, circuit breaker, three
    backpressure modes, shutdown drain. */
module Pools {
  import opened Bags
  import opened Breakers

  datatype Mode = DropMode | BlockMode | FallbackMode

  datatype Config = Config(capacity: nat, maxFails: nat, mode: Mode)

  predicate Proper(cfg: Config) {
    cfg.capacity > 0 && cfg.maxFails > 0
  }

  /** Where a worker is in its loop. `drain` is the loop entered once the context is cancelled.
      `Sent` has delivered but not yet released its message. */
  datatype Worker<T> =
    | Idle(drain: bool)
    | Got(msg: T, drain: bool)
    | Trying(msg: T, attempt: nat, drain: bool)
    | Waiting(msg: T, attempt: nat, drain: bool)
    | Exhausted(msg: T, drain: bool)
    | Rejecting(msg: T, drain: bool)
    | Sent(msg: T, drain: bool)
    | Exited

  /** The last five fields are history: messages `Submit` and `SubmitStrict` took, and where they went:
      to the sink, to the WAL, or nowhere. */
  datatype Pool<T> = Pool(
    queue: seq<T>,
    workers: seq<Worker<T>>,
    closed: bool,
    cancelled: bool,
    channelClosed: bool,
    breaker: Breaker,
    taken: seq<T>,
    strict: seq<T>,
    delivered: seq<T>,
    spilled: seq<T>,
    lost: seq<T>)

  function NewPool<T>(workers: nat): Pool<T> {
    Pool([], seq(workers, _ => Idle(false)), false, false, false, CLOSED, [], [], [], [], [])
  }

  datatype SendResult = SendOk | SendError | SendPanic

  /** `io` says whether a WAL write attempted in the step succeeds. */
  datatype Event<T> =
    | Submit(m: T, io: bool)
    | SubmitStrict(m: T)
    | Take(i: nat)
    | EnterDrain(i: nat)
    | Exit(i: nat)
    | CheckCircuit(i: nat)
    | Send(i: nat, res: SendResult)
    | Backoff(i: nat, interrupted: bool)
    | GiveUp(i: nat)
    | Reject(i: nat, io: bool)
    | Finish(i: nat)
    | ProbeTick(h: Health)
    | ProbeStop
    | SetClosed
    | Cancel
    | CloseChannel

  /** What a step does besides changing the pool: the reply to a submitter, the message written to the
      WAL, the message given back to the message pool. */
  datatype Result<T> = Result(pool: Pool<T>, ok: bool, spill: Option<T>, freed: Option<T>)

  predicate WorkerEvent(ev: Event) {
    ev.Take? || ev.EnterDrain? || ev.Exit? || ev.CheckCircuit? || ev.Send? || ev.Backoff? || ev.GiveUp?
    || ev.Reject? || ev.Finish?
  }

  predicate Enabled<T>(cfg: Config, p: Pool<T>, ev: Event<T>) {
    if WorkerEvent(ev) then ev.i < |p.workers| && WorkerEnabled(p, p.workers[ev.i], ev) else
      match ev
      case ProbeTick(_) => p.breaker.probe
      case ProbeStop => p.channelClosed
      case Cancel => p.closed
      case CloseChannel => p.cancelled
      case _ => true
  }

  predicate WorkerEnabled<T>(p: Pool<T>, w: Worker<T>, ev: Event<T>)
    requires WorkerEvent(ev)
  {
    match ev
    case Take(_) => w.Idle? && p.queue != []
    case EnterDrain(_) => w.Idle? && !w.drain && p.cancelled
    case Exit(_) => w.Idle? && p.queue == [] && p.channelClosed
    case CheckCircuit(_) => w.Got?
    case Send(_, _) => w.Trying?
    case Backoff(_, interrupted) => w.Waiting? && (interrupted ==> p.cancelled)
    case GiveUp(_) => w.Exhausted?
    case Reject(_, _) => w.Rejecting?
    case Finish(_) => w.Sent?
  }

  /** `handleRejected` for a message the pool had taken: the WAL in fallback mode, nowhere otherwise. */
  function Rejected<T>(cfg: Config, p: Pool<T>, m: T, io: bool, ok: bool): Result<T> {
    if cfg.mode.FallbackMode? && io
    then Result(p.(spilled := p.spilled + [m]), ok, Some(m), Some(m))
    else Result(p.(lost := p.lost + [m]), ok, None, Some(m))
  }

  /** `Submit`. The closed test and the channel send are one step; in block mode a full channel at the
      timeout is the refusal. Only in fallback mode does a full channel still count as taken. */
  function Submitted<T>(cfg: Config, p: Pool<T>, m: T, io: bool): Result<T> {
    if p.closed then Result(p, false, None, Some(m))
    else if |p.queue| < cfg.capacity
    then Result(p.(queue := p.queue + [m], taken := p.taken + [m]), true, None, None)
    else if cfg.mode.FallbackMode? then Rejected(cfg, p.(taken := p.taken + [m]), m, io, true)
    else Result(p, false, None, Some(m))
  }

  function SubmittedStrict<T>(cfg: Config, p: Pool<T>, m: T): Result<T> {
    if p.closed || p.breaker.open || |p.queue| >= cfg.capacity then Result(p, false, None, Some(m))
    else Result(p.(queue := p.queue + [m], strict := p.strict + [m]), true, None, None)
  }

  /** Where the worker is after its step. The wait between tries listens to the pool's own context, also
      when draining; the third failed try is the last. */
  function After<T>(p: Pool<T>, w: Worker<T>, ev: Event<T>): Worker<T>
    requires WorkerEvent(ev) && WorkerEnabled(p, w, ev)
  {
    match ev
    case Take(_) => Got(p.queue[0], w.drain)
    case EnterDrain(_) => Idle(true)
    case Exit(_) => Exited
    case CheckCircuit(_) => if p.breaker.open then Rejecting(w.msg, w.drain) else Trying(w.msg, 0, w.drain)
    case Send(_, res) =>
      (match res
       case SendOk => Sent(w.msg, w.drain)
       case SendError =>
         if w.attempt + 1 < 3 then Waiting(w.msg, w.attempt + 1, w.drain) else Exhausted(w.msg, w.drain)
       case SendPanic => Rejecting(w.msg, w.drain))
    case Backoff(_, interrupted) =>
      if interrupted then Rejecting(w.msg, w.drain) else Trying(w.msg, w.attempt, w.drain)
    case GiveUp(_) => Rejecting(w.msg, w.drain)
    case Reject(_, _) => Idle(w.drain)
    case Finish(_) => Idle(w.drain)
  }

  predicate Delivers(ev: Event) {
    ev.Send? && ev.res.SendOk?
  }

  /** One step of worker `i`. */
  function Worked<T>(cfg: Config, p: Pool<T>, ev: Event<T>): Result<T>
    requires WorkerEvent(ev) && Enabled(cfg, p, ev)
  {
    var w := p.workers[ev.i];
    var ws := p.workers[ev.i := After(p, w, ev)];
    if ev.Take? then Result(p.(queue := p.queue[1..], workers := ws), true, None, None)
    else if ev.Reject? then Rejected(cfg, p.(workers := ws), w.msg, ev.io, true)
    else if Delivers(ev) then Result(p.(workers := ws, delivered := p.delivered + [w.msg]), true, None, None)
    else if ev.GiveUp? then
      Result(p.(workers := ws, breaker := RecordFailure(p.breaker, cfg.maxFails)), true, None, None)
    else if ev.Finish? then
      Result(p.(workers := ws, breaker := ResetFailures(p.breaker)), true, None, Some(w.msg))
    else Result(p.(workers := ws), true, None, None)
  }

  function Apply<T>(cfg: Config, p: Pool<T>, ev: Event<T>): Result<T>
    requires Enabled(cfg, p, ev)
  {
    if WorkerEvent(ev) then Worked(cfg, p, ev) else
      match ev
      case Submit(m, io) => Submitted(cfg, p, m, io)
      case SubmitStrict(m) => SubmittedStrict(cfg, p, m)
      case ProbeTick(h) => Result(p.(breaker := Tick(p.breaker, h)), true, None, None)
      case ProbeStop => Result(p.(breaker := p.breaker.(probe := false)), true, None, None)
      case SetClosed => Result(p.(closed := true), true, None, None)
      case Cancel => Result(p.(cancelled := true), true, None, None)
      case CloseChannel => Result(p.(channelClosed := true), true, None, None)
  }

  // ---------- conservation ----------

  /** What a worker still has to see to: a message neither delivered nor rejected yet. */
  ghost function Pending<T(!new), K(!new)>(w: Worker<T>, f: T -> multiset<K>): multiset<K> {
    if w.Idle? || w.Exited? || w.Sent? then multiset{} else f(w.msg)
  }

  ghost function PendingBy<T(!new), K(!new)>(f: T -> multiset<K>): Worker<T> -> multiset<K> {
    (w: Worker<T>) => Pending(w, f)
  }

  ghost function InFlight<T(!new), K(!new)>(p: Pool<T>, f: T -> multiset<K>): multiset<K> {
    Sum(p.workers, PendingBy(f))
  }

  ghost predicate Balanced<K>(taken: multiset<K>, queue: multiset<K>, flight: multiset<K>,
                              delivered: multiset<K>, spilled: multiset<K>, lost: multiset<K>) {
    taken == queue + flight + delivered + spilled + lost
  }

  /** Everything taken is queued, in flight, delivered, in the WAL or lost: no more, no less. `f` maps a
      message to whatever is counted. */
  ghost predicate Conserved<T(!new), K(!new)>(p: Pool<T>, f: T -> multiset<K>) {
    Balanced(Sum(p.taken, f) + Sum(p.strict, f),
             Sum(p.queue, f), InFlight(p, f), Sum(p.delivered, f), Sum(p.spilled, f), Sum(p.lost, f))
  }

  lemma Cancel1<K>(a: multiset<K>, b: multiset<K>, m: multiset<K>)
    requires a + m == b + m
    ensures a == b
  {
    assert (a + m) - m == a && (b + m) - m == b;
  }

  lemma BalanceIn<K>(t: multiset<K>, s: multiset<K>, q: multiset<K>, w: multiset<K>,
                     d: multiset<K>, x: multiset<K>, l: multiset<K>, m: multiset<K>)
    requires Balanced(t + s, q, w, d, x, l)
    ensures Balanced((t + m) + s, q + m, w, d, x, l)
    ensures Balanced(t + (s + m), q + m, w, d, x, l)
    ensures Balanced((t + m) + s, q, w, d, x + m, l)
    ensures Balanced((t + m) + s, q, w, d, x, l + m)
  {
    var all := q + w + d + x + l;
    assert (t + m) + s == t + (s + m) == (t + s) + m;
    assert (q + m) + w + d + x + l == all + m;
    assert q + w + d + (x + m) + l == all + m;
    assert q + w + d + x + (l + m) == all + m;
  }

  lemma BalanceTake<K>(t: multiset<K>, q: multiset<K>, w: multiset<K>,
                       d: multiset<K>, x: multiset<K>, l: multiset<K>, m: multiset<K>)
    requires Balanced(t, m + q, w, d, x, l)
    ensures Balanced(t, q, w + m, d, x, l)
  {
  }

  lemma BalanceOut<K>(t: multiset<K>, q: multiset<K>, w: multiset<K>,
                      d: multiset<K>, x: multiset<K>, l: multiset<K>, m: multiset<K>)
    requires Balanced(t, q, w + m, d, x, l)
    ensures Balanced(t, q, w, d + m, x, l) && Balanced(t, q, w, d, x + m, l) && Balanced(t, q, w, d, x, l + m)
  {
  }

  /** A worker's move, as far as the messages in flight go. */
  lemma WorkerMoves<T(!new), K(!new)>(ws: seq<Worker<T>>, i: nat, next: Worker<T>, f: T -> multiset<K>)
    requires i < |ws|
    ensures Pending(ws[i], f) == Pending(next, f) ==> Sum(ws[i := next], PendingBy(f)) == Sum(ws, PendingBy(f))
    ensures Pending(ws[i], f) == multiset{} ==>
      Sum(ws[i := next], PendingBy(f)) == Sum(ws, PendingBy(f)) + Pending(next, f)
    ensures Pending(next, f) == multiset{} ==>
      Sum(ws, PendingBy(f)) == Sum(ws[i := next], PendingBy(f)) + Pending(ws[i], f)
  {
    SumUpdate(ws, i, next, PendingBy(f));
    if Pending(ws[i], f) == Pending(next, f) {
      Cancel1(Sum(ws[i := next], PendingBy(f)), Sum(ws, PendingBy(f)), Pending(next, f));
    }
  }

  lemma SubmittedConserves<T(!new), K(!new)>(cfg: Config, p: Pool<T>, m: T, io: bool, f: T -> multiset<K>)
    requires Conserved(p, f)
    ensures Conserved(Submitted(cfg, p, m, io).pool, f)
  {
    SumPush(p.queue, m, f);
    SumPush(p.taken, m, f);
    SumPush(p.spilled, m, f);
    SumPush(p.lost, m, f);
    BalanceIn(Sum(p.taken, f), Sum(p.strict, f), Sum(p.queue, f), InFlight(p, f),
              Sum(p.delivered, f), Sum(p.spilled, f), Sum(p.lost, f), f(m));
  }

  lemma SubmittedStrictConserves<T(!new), K(!new)>(cfg: Config, p: Pool<T>, m: T, f: T -> multiset<K>)
    requires Conserved(p, f)
    ensures Conserved(SubmittedStrict(cfg, p, m).pool, f)
  {
    SumPush(p.queue, m, f);
    SumPush(p.strict, m, f);
    BalanceIn(Sum(p.taken, f), Sum(p.strict, f), Sum(p.queue, f), InFlight(p, f),
              Sum(p.delivered, f), Sum(p.spilled, f), Sum(p.lost, f), f(m));
  }

  lemma TakeConserves<T(!new), K(!new)>(cfg: Config, p: Pool<T>, i: nat, f: T -> multiset<K>)
    requires Conserved(p, f) && Enabled(cfg, p, Take(i))
    ensures Conserved(Worked(cfg, p, Take(i)).pool, f)
  {
    var m := p.queue[0];
    WorkerMoves(p.workers, i, Got(m, p.workers[i].drain), f);
    BalanceTake(Sum(p.taken, f) + Sum(p.strict, f), Sum(p.queue[1..], f), InFlight(p, f),
                Sum(p.delivered, f), Sum(p.spilled, f), Sum(p.lost, f), f(m));
  }

  /** A delivery or a rejection: the message leaves the worker for exactly one of three places. */
  lemma LeavesConserves<T(!new), K(!new)>(p: Pool<T>, i: nat, next: Worker<T>, f: T -> multiset<K>)
    requires Conserved(p, f) && i < |p.workers| && !p.workers[i].Idle? && !p.workers[i].Exited? && !p.workers[i].Sent?
    requires next.Idle? || next.Sent?
    ensures var q := p.(workers := p.workers[i := next]); var m := p.workers[i].msg;
      && Conserved(q.(delivered := p.delivered + [m]), f)
      && Conserved(q.(spilled := p.spilled + [m]), f)
      && Conserved(q.(lost := p.lost + [m]), f)
  {
    var m := p.workers[i].msg;
    WorkerMoves(p.workers, i, next, f);
    SumPush(p.delivered, m, f);
    SumPush(p.spilled, m, f);
    SumPush(p.lost, m, f);
    BalanceOut(Sum(p.taken, f) + Sum(p.strict, f), Sum(p.queue, f), Sum(p.workers[i := next], PendingBy(f)),
               Sum(p.delivered, f), Sum(p.spilled, f), Sum(p.lost, f), f(m));
  }

  /** The steps that only change what a worker is about to do with its message. */
  lemma MovesConserves<T(!new), K(!new)>(p: Pool<T>, i: nat, next: Worker<T>, b: Breaker, f: T -> multiset<K>)
    requires Conserved(p, f) && i < |p.workers| && Pending(next, f) == Pending(p.workers[i], f)
    ensures Conserved(p.(workers := p.workers[i := next], breaker := b), f)
  {
    WorkerMoves(p.workers, i, next, f);
  }

  lemma AfterPending<T(!new), K(!new)>(p: Pool<T>, w: Worker<T>, ev: Event<T>, f: T -> multiset<K>)
    requires WorkerEvent(ev) && WorkerEnabled(p, w, ev)
    ensures !ev.Take? && !ev.Reject? && !Delivers(ev) ==> Pending(After(p, w, ev), f) == Pending(w, f)
    ensures ev.Reject? || Delivers(ev) ==> Pending(w, f) == f(w.msg)
  {
  }

  lemma WorkedConserves<T(!new), K(!new)>(cfg: Config, p: Pool<T>, ev: Event<T>, f: T -> multiset<K>)
    requires Conserved(p, f) && WorkerEvent(ev) && Enabled(cfg, p, ev)
    ensures Conserved(Worked(cfg, p, ev).pool, f)
  {
    var w := p.workers[ev.i];
    var next := After(p, w, ev);
    AfterPending(p, w, ev, f);
    if ev.Take? {
      TakeConserves(cfg, p, ev.i, f);
    } else if ev.Reject? || Delivers(ev) {
      LeavesConserves(p, ev.i, next, f);
    } else {
      var r := Worked(cfg, p, ev).pool;
      MovesConserves(p, ev.i, next, r.breaker, f);
      assert r == p.(workers := p.workers[ev.i := next], breaker := r.breaker);
    }
  }

  lemma ApplyConserves<T(!new), K(!new)>(cfg: Config, p: Pool<T>, ev: Event<T>, f: T -> multiset<K>)
    requires Conserved(p, f) && Enabled(cfg, p, ev)
    ensures Conserved(Apply(cfg, p, ev).pool, f)
  {
    if WorkerEvent(ev) {
      WorkedConserves(cfg, p, ev, f);
    } else {
      match ev
      case Submit(m, io) => SubmittedConserves(cfg, p, m, io, f);
      case SubmitStrict(m) => SubmittedStrictConserves(cfg, p, m, f);
      case _ =>
    }
  }

  // ---------- shape: shutdown order, breaker, capacity ----------

  predicate WorkerSane<T>(w: Worker<T>, drained: bool) {
    && (w.Exited? ==> drained)
    && (w.Trying? || w.Waiting? ==> w.attempt < 3)
  }

  ghost predicate WorkersSane<T>(ws: seq<Worker<T>>, drained: bool) {
    forall i :: 0 <= i < |ws| ==> WorkerSane(ws[i], drained)
  }

  /** A worker leaves only from a closed and empty channel, tries at most three times, and the pool shuts
      down in order. */
  ghost predicate Sane<T>(cfg: Config, p: Pool<T>) {
    && (p.channelClosed ==> p.cancelled) && (p.cancelled ==> p.closed)
    && |p.queue| <= cfg.capacity
    && Counted(p.breaker, cfg.maxFails) && (!p.closed ==> Guarded(p.breaker))
    && WorkersSane(p.workers, p.channelClosed && p.queue == [])
  }

  lemma AfterSane<T>(p: Pool<T>, w: Worker<T>, ev: Event<T>, drained: bool)
    requires WorkerEvent(ev) && WorkerEnabled(p, w, ev) && WorkerSane(w, drained)
    requires drained <==> p.channelClosed && p.queue == []
    ensures WorkerSane(After(p, w, ev), drained)
  {
  }

  lemma WorkersMove<T>(ws: seq<Worker<T>>, i: nat, next: Worker<T>, drained: bool, after: bool)
    requires i < |ws| && WorkersSane(ws, drained) && WorkerSane(next, drained) && (drained ==> after)
    ensures WorkersSane(ws[i := next], after)
  {
  }

  lemma WorkedParts<T>(cfg: Config, p: Pool<T>, ev: Event<T>)
    requires WorkerEvent(ev) && Enabled(cfg, p, ev)
    ensures var r := Worked(cfg, p, ev).pool;
      && r.closed == p.closed && r.cancelled == p.cancelled && r.channelClosed == p.channelClosed
      && r.workers == p.workers[ev.i := After(p, p.workers[ev.i], ev)]
      && r.queue == (if ev.Take? then p.queue[1..] else p.queue)
      && r.delivered == (if Delivers(ev) then p.delivered + [p.workers[ev.i].msg] else p.delivered)
      && r.breaker == (if ev.GiveUp? then RecordFailure(p.breaker, cfg.maxFails)
                       else if ev.Finish? then ResetFailures(p.breaker) else p.breaker)
  {
  }

  lemma WorkedSane<T>(cfg: Config, p: Pool<T>, ev: Event<T>)
    requires Proper(cfg) && Sane(cfg, p) && WorkerEvent(ev) && Enabled(cfg, p, ev)
    ensures Sane(cfg, Worked(cfg, p, ev).pool)
  {
    var r := Worked(cfg, p, ev).pool;
    var drained := p.channelClosed && p.queue == [];
    WorkedParts(cfg, p, ev);
    assert WorkersSane(r.workers, r.channelClosed && r.queue == []) by {
      assert ev.Take? ==> !drained;
      AfterSane(p, p.workers[ev.i], ev, drained);
      WorkersMove(p.workers, ev.i, After(p, p.workers[ev.i], ev), drained, r.channelClosed && r.queue == []);
    }
    FailureSound(p.breaker, cfg.maxFails);
    ResetSound(p.breaker, cfg.maxFails);
  }

  lemma ApplySane<T>(cfg: Config, p: Pool<T>, ev: Event<T>)
    requires Proper(cfg) && Sane(cfg, p) && Enabled(cfg, p, ev)
    ensures Sane(cfg, Apply(cfg, p, ev).pool)
  {
    if WorkerEvent(ev) {
      WorkedSane(cfg, p, ev);
    } else if ev.ProbeTick? {
      TickSound(p.breaker, cfg.maxFails, ev.h);
    }
  }

  /** Until the pool is told to stop, a message past the circuit check is tried until a send succeeds or panics or the
      third one fails: no wait is cut short, and only the third failure counts. */
  lemma TriesExactly<T>(cfg: Config, p: Pool<T>, i: nat, ev: Event<T>)
    requires !p.cancelled && i < |p.workers| && (p.workers[i].Trying? || p.workers[i].Waiting?)
    requires WorkerEvent(ev) && ev.i == i && Enabled(cfg, p, ev)
    ensures var w := p.workers[i]; var next := Worked(cfg, p, ev).pool.workers[i];
      if w.Waiting? then next == Trying(w.msg, w.attempt, w.drain)
      else if ev.res.SendOk? then next == Sent(w.msg, w.drain)
      else if ev.res.SendPanic? then next == Rejecting(w.msg, w.drain)
      else if w.attempt < 2 then next == Waiting(w.msg, w.attempt + 1, w.drain)
      else next == Exhausted(w.msg, w.drain)
  {
  }

  // ---------- message handles ----------

  /** The handles a pool owns: queued, or in the hands of a worker until released. */
  ghost function Holding<T(!new), K(!new)>(w: Worker<T>, f: T -> multiset<K>): multiset<K> {
    if w.Idle? || w.Exited? then multiset{} else f(w.msg)
  }

  ghost function Hands<T(!new), K(!new)>(f: T -> multiset<K>): Worker<T> -> multiset<K> {
    (w: Worker<T>) => Holding(w, f)
  }

  ghost function Owned<T(!new), K(!new)>(p: Pool<T>, f: T -> multiset<K>): multiset<K> {
    Sum(p.queue, f) + Sum(p.workers, Hands(f))
  }

  ghost function Of<T(!new), K(!new)>(o: Option<T>, f: T -> multiset<K>): multiset<K> {
    if o.Some? then f(o.value) else multiset{}
  }

  /** A worker's move, as far as the handles it holds go. */
  lemma HandsMove<T(!new), K(!new)>(ws: seq<Worker<T>>, i: nat, next: Worker<T>, f: T -> multiset<K>)
    requires i < |ws|
    ensures Holding(ws[i], f) == Holding(next, f) ==> Sum(ws[i := next], Hands(f)) == Sum(ws, Hands(f))
    ensures Holding(ws[i], f) == multiset{} ==> Sum(ws[i := next], Hands(f)) == Sum(ws, Hands(f)) + Holding(next, f)
    ensures Holding(next, f) == multiset{} ==> Sum(ws, Hands(f)) == Sum(ws[i := next], Hands(f)) + Holding(ws[i], f)
  {
    SumUpdate(ws, i, next, Hands(f));
    if Holding(ws[i], f) == Holding(next, f) {
      Cancel1(Sum(ws[i := next], Hands(f)), Sum(ws, Hands(f)), Holding(next, f));
    }
  }

  lemma AfterHands<T(!new), K(!new)>(p: Pool<T>, w: Worker<T>, ev: Event<T>, f: T -> multiset<K>)
    requires WorkerEvent(ev) && WorkerEnabled(p, w, ev)
    ensures ev.Take? ==> Holding(w, f) == multiset{} && Holding(After(p, w, ev), f) == f(p.queue[0])
    ensures ev.Reject? || ev.Finish? ==> Holding(w, f) == f(w.msg) && Holding(After(p, w, ev), f) == multiset{}
    ensures !ev.Take? && !ev.Reject? && !ev.Finish? ==> Holding(After(p, w, ev), f) == Holding(w, f)
  {
  }

  lemma SumHead<T(!new), K(!new)>(xs: seq<T>, f: T -> multiset<K>)
    requires xs != []
    ensures Sum(xs, f) == f(xs[0]) + Sum(xs[1..], f)
  {
  }

  lemma TakeBalance<K>(q: multiset<K>, q1: multiset<K>, w: multiset<K>, w1: multiset<K>, m: multiset<K>)
    requires q == m + q1 && w1 == w + m
    ensures (q1 + w1) + multiset{} == q + w
  {
  }

  lemma TakeOwns<T(!new), K(!new)>(p: Pool<T>, r: Pool<T>, i: nat, drain: bool, f: T -> multiset<K>)
    requires p.queue != [] && i < |p.workers| && p.workers[i].Idle?
    requires r.queue == p.queue[1..] && r.workers == p.workers[i := Got(p.queue[0], drain)]
    ensures Owned(r, f) + multiset{} == Owned(p, f)
  {
    HandsMove(p.workers, i, Got(p.queue[0], drain), f);
    SumHead(p.queue, f);
    TakeBalance(Sum(p.queue, f), Sum(p.queue[1..], f), Sum(p.workers, Hands(f)), Sum(r.workers, Hands(f)),
                f(p.queue[0]));
  }

  /** The other steps: the queue stays, the worker keeps its message or gives it back. */
  lemma HandsOwn<T(!new), K(!new)>(p: Pool<T>, r: Pool<T>, i: nat, next: Worker<T>, freed: Option<T>,
                                   f: T -> multiset<K>)
    requires i < |p.workers| && r.queue == p.queue && r.workers == p.workers[i := next]
    requires if freed.Some? then Holding(p.workers[i], f) == f(freed.value) && Holding(next, f) == multiset{}
             else Holding(next, f) == Holding(p.workers[i], f)
    ensures Owned(r, f) + Of(freed, f) == Owned(p, f)
  {
    HandsMove(p.workers, i, next, f);
  }

  lemma WorkedFrees<T>(cfg: Config, p: Pool<T>, ev: Event<T>)
    requires WorkerEvent(ev) && Enabled(cfg, p, ev) && !ev.Take?
    ensures var r := Worked(cfg, p, ev); var w := p.workers[ev.i];
      && r.pool.queue == p.queue && r.pool.workers == p.workers[ev.i := After(p, w, ev)]
      && (if ev.Reject? || ev.Finish? then r.freed == Some(w.msg) else r.freed == None)
  {
  }

  /** A step of a worker gives back exactly what it no longer owns. */
  lemma WorkedOwns<T(!new), K(!new)>(cfg: Config, p: Pool<T>, ev: Event<T>, f: T -> multiset<K>)
    requires WorkerEvent(ev) && Enabled(cfg, p, ev)
    ensures Owned(Worked(cfg, p, ev).pool, f) + Of(Worked(cfg, p, ev).freed, f) == Owned(p, f)
  {
    if ev.Take? {
      WorkedParts(cfg, p, ev);
      assert Of(Worked(cfg, p, ev).freed, f) == multiset{};
      TakeOwns(p, Worked(cfg, p, ev).pool, ev.i, p.workers[ev.i].drain, f);
    } else {
      var w := p.workers[ev.i];
      var next := After(p, w, ev);
      var r := Worked(cfg, p, ev);
      WorkedFrees(cfg, p, ev);
      AfterHands(p, w, ev, f);
      HandsOwn(p, r.pool, ev.i, next, r.freed, f);
    }
  }

  /** A message goes into the queue, or back. */
  lemma PushOwns<T(!new), K(!new)>(p: Pool<T>, r: Pool<T>, freed: Option<T>, m: T, f: T -> multiset<K>)
    requires r.workers == p.workers
    requires (freed == None && r.queue == p.queue + [m]) || (freed == Some(m) && r.queue == p.queue)
    ensures Owned(r, f) + Of(freed, f) == Owned(p, f) + f(m)
  {
    SumPush(p.queue, m, f);
    if freed == None {
      var q, w, x := Sum(p.queue, f), Sum(p.workers, Hands(f)), f(m);
      assert (q + x) + w + multiset{} == (q + w) + x;
    }
  }

  /** A submitted message is owned by the pool or given back, never both and never neither. */
  lemma SubmittedOwns<T(!new), K(!new)>(cfg: Config, p: Pool<T>, m: T, io: bool, f: T -> multiset<K>)
    ensures var r := Submitted(cfg, p, m, io); Owned(r.pool, f) + Of(r.freed, f) == Owned(p, f) + f(m)
    ensures var r := SubmittedStrict(cfg, p, m); Owned(r.pool, f) + Of(r.freed, f) == Owned(p, f) + f(m)
  {
    PushOwns(p, Submitted(cfg, p, m, io).pool, Submitted(cfg, p, m, io).freed, m, f);
    PushOwns(p, SubmittedStrict(cfg, p, m).pool, SubmittedStrict(cfg, p, m).freed, m, f);
  }

  // ---------- whole runs ----------

  predicate IsRun<T>(cfg: Config, p: Pool<T>, evs: seq<Event<T>>)
    decreases |evs|
  {
    evs == [] || (Enabled(cfg, p, evs[0]) && IsRun(cfg, Apply(cfg, p, evs[0]).pool, evs[1..]))
  }

  function Run<T>(cfg: Config, p: Pool<T>, evs: seq<Event<T>>): Pool<T>
    requires IsRun(cfg, p, evs)
    decreases |evs|
  {
    if evs == [] then p else Run(cfg, Apply(cfg, p, evs[0]).pool, evs[1..])
  }

  lemma {:induction false} RunPush<T>(cfg: Config, p: Pool<T>, evs: seq<Event<T>>, ev: Event<T>)
    requires IsRun(cfg, p, evs) && Enabled(cfg, Run(cfg, p, evs), ev)
    ensures IsRun(cfg, p, evs + [ev])
    ensures Run(cfg, p, evs + [ev]) == Apply(cfg, Run(cfg, p, evs), ev).pool
    decreases |evs|
  {
    if evs == [] {
      assert [] + [ev] == [ev];
      RunOne(cfg, p, ev);
    } else {
      assert (evs + [ev])[1..] == evs[1..] + [ev];
      RunPush(cfg, Apply(cfg, p, evs[0]).pool, evs[1..], ev);
    }
  }

  lemma RunAfter<T>(cfg: Config, p: Pool<T>, ev: Event<T>, evs: seq<Event<T>>)
    requires Enabled(cfg, p, ev) && IsRun(cfg, Apply(cfg, p, ev).pool, evs)
    ensures IsRun(cfg, p, [ev] + evs) && Run(cfg, p, [ev] + evs) == Run(cfg, Apply(cfg, p, ev).pool, evs)
  {
  }

  lemma RunOne<T>(cfg: Config, p: Pool<T>, ev: Event<T>)
    requires Enabled(cfg, p, ev)
    ensures IsRun(cfg, p, [ev]) && Run(cfg, p, [ev]) == Apply(cfg, p, ev).pool
  {
  }

  lemma {:induction false} RunKeeps<T(!new), K(!new)>(cfg: Config, p: Pool<T>, evs: seq<Event<T>>, f: T -> multiset<K>)
    requires Proper(cfg) && Sane(cfg, p) && Conserved(p, f) && IsRun(cfg, p, evs)
    ensures Sane(cfg, Run(cfg, p, evs)) && Conserved(Run(cfg, p, evs), f)
    decreases |evs|
  {
    if evs != [] {
      ApplySane(cfg, p, evs[0]);
      ApplyConserves(cfg, p, evs[0], f);
      RunKeeps(cfg, Apply(cfg, p, evs[0]).pool, evs[1..], f);
    }
  }

  lemma {:induction false} NewWorkers<T(!new), K(!new)>(ws: seq<Worker<T>>, f: T -> multiset<K>)
    requires forall i :: 0 <= i < |ws| ==> ws[i].Idle? || ws[i].Exited?
    ensures Sum(ws, PendingBy(f)) == multiset{} && Sum(ws, Hands(f)) == multiset{}
  {
    if ws != [] {
      NewWorkers(ws[1..], f);
    }
  }

  lemma NewPoolKeeps<T(!new), K(!new)>(cfg: Config, workers: nat, f: T -> multiset<K>)
    requires Proper(cfg)
    ensures Sane(cfg, NewPool<T>(workers)) && Conserved(NewPool<T>(workers), f)
  {
    NewWorkers(NewPool<T>(workers).workers, f);
  }

  function One<T>(m: T): multiset<T> {
    multiset{m}
  }

  lemma {:induction false} SumOnes<T(!new)>(xs: seq<T>)
    ensures Sum(xs, One) == multiset(xs)
  {
    if xs != [] {
      SumOnes(xs[1..]);
      assert xs == [xs[0]] + xs[1..];
    }
  }

  /** Conservation over every run: retries, panics, open circuit and shutdown included. */
  lemma PoolConservation<T(!new)>(cfg: Config, workers: nat, evs: seq<Event<T>>)
    requires Proper(cfg) && IsRun(cfg, NewPool<T>(workers), evs)
    ensures var p := Run(cfg, NewPool<T>(workers), evs);
      multiset(p.taken) + multiset(p.strict)
        == multiset(p.queue) + InFlight(p, One) + multiset(p.delivered) + multiset(p.spilled) + multiset(p.lost)
  {
    NewPoolKeeps<T, T>(cfg, workers, One);
    RunKeeps(cfg, NewPool<T>(workers), evs, One);
    var p := Run(cfg, NewPool<T>(workers), evs);
    SumOnes(p.taken);
    SumOnes(p.strict);
    SumOnes(p.queue);
    SumOnes(p.delivered);
    SumOnes(p.spilled);
    SumOnes(p.lost);
  }

  /** No write to the WAL fails in the run. */
  ghost predicate WritesSucceed<T>(evs: seq<Event<T>>) {
    forall i :: 0 <= i < |evs| && (evs[i].Reject? || evs[i].Submit?) ==> evs[i].io
  }

  /** A submit that is acknowledged adds to the losses exactly in fallback mode, on a full channel, when the write
      fails; a refused one never does. */
  lemma SubmittedLoses<T>(cfg: Config, p: Pool<T>, m: T, io: bool)
    ensures var r := Submitted(cfg, p, m, io);
      var loses := !p.closed && |p.queue| >= cfg.capacity && cfg.mode.FallbackMode? && !io;
      r.pool.lost == (if loses then p.lost + [m] else p.lost) && (loses ==> r.ok && r.spill.None?)
  {
  }

  lemma {:induction false} NothingLost<T>(cfg: Config, p: Pool<T>, evs: seq<Event<T>>)
    requires cfg.mode.FallbackMode? && WritesSucceed(evs) && IsRun(cfg, p, evs)
    ensures Run(cfg, p, evs).lost == p.lost
    decreases |evs|
  {
    if evs != [] {
      assert WritesSucceed(evs[1..]) by {
        assert forall i :: 0 <= i < |evs[1..]| ==> evs[1..][i] == evs[i + 1];
      }
      assert Apply(cfg, p, evs[0]).pool.lost == p.lost;
      NothingLost(cfg, Apply(cfg, p, evs[0]).pool, evs[1..]);
    }
  }

  lemma {:induction false} RunWorkers<T>(cfg: Config, p: Pool<T>, evs: seq<Event<T>>)
    requires IsRun(cfg, p, evs)
    ensures |Run(cfg, p, evs).workers| == |p.workers|
    decreases |evs|
  {
    if evs != [] {
      RunWorkers(cfg, Apply(cfg, p, evs[0]).pool, evs[1..]);
    }
  }

  /** Drain: when all workers have left, the channel is closed and empty and nothing is in flight; in
      fallback mode with successful writes everything ever taken was delivered or is in the WAL. */
  lemma Drained<T(!new)>(cfg: Config, workers: nat, evs: seq<Event<T>>)
    requires Proper(cfg) && workers > 0 && IsRun(cfg, NewPool<T>(workers), evs)
    requires forall i :: 0 <= i < workers && i < |Run(cfg, NewPool<T>(workers), evs).workers| ==>
      Run(cfg, NewPool<T>(workers), evs).workers[i].Exited?
    ensures var p := Run(cfg, NewPool<T>(workers), evs);
      && p.closed && p.channelClosed && p.queue == [] && InFlight(p, One) == multiset{}
      && (cfg.mode.FallbackMode? && WritesSucceed(evs) ==>
            multiset(p.taken) + multiset(p.strict) == multiset(p.delivered) + multiset(p.spilled))
  {
    var p := Run(cfg, NewPool<T>(workers), evs);
    NewPoolKeeps<T, T>(cfg, workers, One);
    RunKeeps(cfg, NewPool<T>(workers), evs, One);
    RunWorkers(cfg, NewPool<T>(workers), evs);
    assert p.workers[0].Exited?;
    NewWorkers<T, T>(p.workers, One);
    PoolConservation<T>(cfg, workers, evs);
    if cfg.mode.FallbackMode? && WritesSucceed(evs) {
      NothingLost(cfg, NewPool<T>(workers), evs);
    }
  }

  /** The breaker over every history: open exactly at `maxFails` recorded failures since the last reset; until the
      pool shuts down an open circuit has a live probe, whose next healthy tick closes it, if and only if no health
      check panicked since it opened. A tick leaves the probe alive exactly on an open circuit with an unhealthy
      sink. */
  lemma BreakerAlwaysRecovers<T(!new)>(cfg: Config, workers: nat, evs: seq<Event<T>>)
    requires Proper(cfg) && IsRun(cfg, NewPool<T>(workers), evs)
    ensures var p := Run(cfg, NewPool<T>(workers), evs); var b := p.breaker;
      && (b.open <==> Trailing(b.log) >= cfg.maxFails)
      && (b.open && !p.closed ==> (Enabled(cfg, p, ProbeTick(Healthy)) <==> !Panicked(b.log)))
      && (forall h :: Enabled(cfg, p, ProbeTick(h)) ==>
            var r := Apply(cfg, p, ProbeTick(h)).pool.breaker;
            (r.open <==> b.open && !h.Healthy?) && (r.probe <==> b.open && h.Unhealthy?))
  {
    NewPoolKeeps<T, T>(cfg, workers, One);
    RunKeeps(cfg, NewPool<T>(workers), evs, One);
  }

  /** A send that got past the circuit check and has not failed for good. */
  predicate UnderWay<T>(w: Worker<T>) {
    w.Trying? || w.Waiting? || w.Sent?
  }

  ghost predicate SomeUnderWay<T>(ws: seq<Worker<T>>) {
    exists i :: 0 <= i < |ws| && UnderWay(ws[i])
  }

  /** An open circuit, no probe, no send under way: every step leaves it so, since a message taken now is rejected. */
  lemma StrandedStep<T>(cfg: Config, p: Pool<T>, ev: Event<T>)
    requires p.breaker.open && !p.breaker.probe && !SomeUnderWay(p.workers) && Enabled(cfg, p, ev)
    ensures var r := Apply(cfg, p, ev).pool; r.breaker.open && !r.breaker.probe && !SomeUnderWay(r.workers)
  {
    if WorkerEvent(ev) {
      WorkedParts(cfg, p, ev);
      assert !UnderWay(p.workers[ev.i]);
      assert !UnderWay(After(p, p.workers[ev.i], ev));
    }
  }

  lemma {:induction false} StrandedRun<T>(cfg: Config, p: Pool<T>, evs: seq<Event<T>>)
    requires p.breaker.open && !p.breaker.probe && !SomeUnderWay(p.workers) && IsRun(cfg, p, evs)
    ensures var r := Run(cfg, p, evs); r.breaker.open && !r.breaker.probe && !SomeUnderWay(r.workers)
    decreases |evs|
  {
    if evs != [] {
      StrandedStep(cfg, p, evs[0]);
      StrandedRun(cfg, Apply(cfg, p, evs[0]).pool, evs[1..]);
    }
  }

  /** A send under way may still succeed, and that closes the circuit. */
  lemma {:induction false} ClosingRun<T>(cfg: Config, p: Pool<T>, i: nat) returns (evs: seq<Event<T>>)
    requires i < |p.workers| && UnderWay(p.workers[i])
    ensures IsRun(cfg, p, evs) && !Run(cfg, p, evs).breaker.open
    decreases if p.workers[i].Waiting? then 2 else if p.workers[i].Trying? then 1 else 0
  {
    if p.workers[i].Sent? {
      evs := [Finish(i)];
      RunOne(cfg, p, Finish(i));
    } else {
      var ev := if p.workers[i].Trying? then Send(i, SendOk) else Backoff(i, false);
      var rest := ClosingRun(cfg, Apply(cfg, p, ev).pool, i);
      RunAfter(cfg, p, ev, rest);
      evs := [ev] + rest;
    }
  }

  /** An open circuit that has lost its probe can be closed again if and only if a send is under way. Otherwise it
      stays open for good, with no probe, whatever is submitted, taken or failed afterwards. */
  lemma {:induction false} PanicStrands<T(!new)>(cfg: Config, p: Pool<T>)
    requires p.breaker.open && !p.breaker.probe
    ensures (exists evs :: IsRun(cfg, p, evs) && !Run(cfg, p, evs).breaker.open) <==> SomeUnderWay(p.workers)
    ensures !SomeUnderWay(p.workers) ==> forall evs :: IsRun(cfg, p, evs) ==> !Run(cfg, p, evs).breaker.probe
  {
    if SomeUnderWay(p.workers) {
      var i :| 0 <= i < |p.workers| && UnderWay(p.workers[i]);
      var evs := ClosingRun(cfg, p, i);
    } else {
      forall evs | IsRun(cfg, p, evs) ensures Run(cfg, p, evs).breaker.open && !Run(cfg, p, evs).breaker.probe {
        StrandedRun(cfg, p, evs);
      }
    }
  }

  // ---------- one message, start to finish ----------

  /** A step of a lone worker that touches nothing but itself. */
  lemma LoneStep<T>(cfg: Config, p: Pool<T>, w: Worker<T>, ev: Event<T>)
    requires p.workers == [w] && WorkerEvent(ev) && ev.i == 0 && WorkerEnabled(p, w, ev)
    requires ev.CheckCircuit? || ev.Backoff? || (ev.Send? && !ev.res.SendOk?)
    ensures Enabled(cfg, p, ev) && Apply(cfg, p, ev).pool == p.(workers := [After(p, w, ev)])
  {
  }

  /** `n` failed tries, each waited out. */
  lemma {:induction false} ErrorsRun<T>(cfg: Config, p: Pool<T>, m: T, drain: bool, k: nat, n: nat)
    returns (evs: seq<Event<T>>)
    requires p.workers == [Trying(m, k, drain)] && k + n <= 2
    ensures IsRun(cfg, p, evs) && Run(cfg, p, evs) == p.(workers := [Trying(m, k + n, drain)])
    decreases n
  {
    if n == 0 {
      evs := [];
    } else {
      var q := p.(workers := [Waiting(m, k + 1, drain)]);
      var r := p.(workers := [Trying(m, k + 1, drain)]);
      LoneStep(cfg, p, Trying(m, k, drain), Send(0, SendError));
      LoneStep(cfg, q, Waiting(m, k + 1, drain), Backoff(0, false));
      var rest := ErrorsRun(cfg, r, m, drain, k + 1, n - 1);
      RunAfter(cfg, q, Backoff(0, false), rest);
      RunAfter(cfg, p, Send(0, SendError), [Backoff(0, false)] + rest);
      evs := [Send(0, SendError)] + ([Backoff(0, false)] + rest);
    }
  }

  /** Where the last try leaves the worker: an error before the third try ends the matter only when the wait after
      it is interrupted. */
  function LastWorker<T>(m: T, drain: bool, tries: nat, res: SendResult): Worker<T> {
    match res
    case SendOk => Sent(m, drain)
    case SendPanic => Rejecting(m, drain)
    case SendError => if tries < 3 then Rejecting(m, drain) else Exhausted(m, drain)
  }

  lemma LastRun<T>(cfg: Config, p: Pool<T>, m: T, drain: bool, tries: nat, res: SendResult) returns (evs: seq<Event<T>>)
    requires 0 < tries <= 3 && p.workers == [Trying(m, tries - 1, drain)]
    requires tries < 3 && res.SendError? ==> p.cancelled
    ensures IsRun(cfg, p, evs)
    ensures Run(cfg, p, evs) == p.(workers := [LastWorker(m, drain, tries, res)],
                                   delivered := if res.SendOk? then p.delivered + [m] else p.delivered)
  {
    RunOne(cfg, p, Send(0, res));
    evs := [Send(0, res)];
    if res.SendError? && tries < 3 {
      var q := p.(workers := [Waiting(m, tries, drain)]);
      LoneStep(cfg, p, Trying(m, tries - 1, drain), Send(0, res));
      LoneStep(cfg, q, Waiting(m, tries, drain), Backoff(0, true));
      RunPush(cfg, p, evs, Backoff(0, true));
      evs := evs + [Backoff(0, true)];
    }
  }

  /** A success resets the breaker, three errors in a row are one failure, anything else leaves it alone. */
  function BreakerAfter<T>(cfg: Config, b: Breaker, last: Worker<T>): Breaker {
    if last.Sent? then ResetFailures(b) else if last.Exhausted? then RecordFailure(b, cfg.maxFails) else b
  }

  /** What becomes of the pool once the worker at `last` has settled its message. */
  function Settled<T>(cfg: Config, p: Pool<T>, last: Worker<T>, io: bool): Pool<T>
    requires last.Sent? || last.Rejecting? || last.Exhausted?
  {
    var r := p.(workers := [Idle(last.drain)], breaker := BreakerAfter(cfg, p.breaker, last));
    if last.Sent? then r else Rejected(cfg, r, last.msg, io, true).pool
  }

  /** The last steps of a lone worker. */
  lemma LoneEnd<T>(cfg: Config, p: Pool<T>, w: Worker<T>, io: bool)
    requires p.workers == [w]
    ensures w.Sent? ==>
      && Enabled(cfg, p, Finish(0))
      && Apply(cfg, p, Finish(0)).pool == p.(workers := [Idle(w.drain)], breaker := ResetFailures(p.breaker))
    ensures w.Rejecting? ==>
      && Enabled(cfg, p, Reject(0, io))
      && Apply(cfg, p, Reject(0, io)).pool == Rejected(cfg, p.(workers := [Idle(w.drain)]), w.msg, io, true).pool
    ensures w.Exhausted? ==>
      && Enabled(cfg, p, GiveUp(0))
      && Apply(cfg, p, GiveUp(0)).pool
           == p.(workers := [Rejecting(w.msg, w.drain)], breaker := RecordFailure(p.breaker, cfg.maxFails))
  {
    if !w.Exited? && !w.Idle? {
      assert [w][0 := Idle(w.drain)] == [Idle(w.drain)];
      assert [w][0 := Rejecting(w.msg, w.drain)] == [Rejecting(w.msg, w.drain)];
    }
  }

  lemma SettleRun<T>(cfg: Config, p: Pool<T>, last: Worker<T>, io: bool) returns (evs: seq<Event<T>>)
    requires p.workers == [last] && (last.Sent? || last.Rejecting? || last.Exhausted?)
    ensures IsRun(cfg, p, evs) && Run(cfg, p, evs) == Settled(cfg, p, last, io)
  {
    LoneEnd(cfg, p, last, io);
    if last.Sent? {
      evs := [Finish(0)];
      RunOne(cfg, p, Finish(0));
    } else if last.Rejecting? {
      evs := [Reject(0, io)];
      RunOne(cfg, p, Reject(0, io));
    } else {
      var q := p.(workers := [Rejecting(last.msg, last.drain)], breaker := RecordFailure(p.breaker, cfg.maxFails));
      LoneEnd(cfg, q, q.workers[0], io);
      RunOne(cfg, q, Reject(0, io));
      RunAfter(cfg, p, GiveUp(0), [Reject(0, io)]);
      evs := [GiveUp(0)] + [Reject(0, io)];
    }
  }

  lemma {:induction false} RunJoin<T>(cfg: Config, p: Pool<T>, xs: seq<Event<T>>, ys: seq<Event<T>>)
    requires IsRun(cfg, p, xs) && IsRun(cfg, Run(cfg, p, xs), ys)
    ensures IsRun(cfg, p, xs + ys) && Run(cfg, p, xs + ys) == Run(cfg, Run(cfg, p, xs), ys)
    decreases |xs|
  {
    if xs == [] {
      assert xs + ys == ys;
    } else {
      assert (xs + ys)[1..] == xs[1..] + ys;
      RunJoin(cfg, Apply(cfg, p, xs[0]).pool, xs[1..], ys);
    }
  }

  /** The pool after worker 0, alone with its message, has made `tries` tries with outcome `res` for the last. */
  function Processed<T>(cfg: Config, p: Pool<T>, m: T, drain: bool, tries: nat, res: SendResult, io: bool): Pool<T> {
    if tries == 0 then Settled(cfg, p, Rejecting(m, drain), io)
    else Settled(cfg, p.(delivered := if res.SendOk? then p.delivered + [m] else p.delivered),
                 LastWorker(m, drain, tries, res), io)
  }

  lemma TriesRun<T>(cfg: Config, p: Pool<T>, m: T, drain: bool, tries: nat, res: SendResult)
    returns (evs: seq<Event<T>>)
    requires p.workers == [Trying(m, 0, drain)] && 0 < tries <= 3
    requires tries < 3 && res.SendError? ==> p.cancelled
    ensures IsRun(cfg, p, evs)
    ensures Run(cfg, p, evs) == p.(workers := [LastWorker(m, drain, tries, res)],
                                   delivered := if res.SendOk? then p.delivered + [m] else p.delivered)
  {
    var errors := ErrorsRun(cfg, p, m, drain, 0, tries - 1);
    var q := p.(workers := [Trying(m, tries - 1, drain)]);
    var last := LastRun(cfg, q, m, drain, tries, res);
    RunJoin(cfg, p, errors, last);
    evs := errors + last;
  }

  /** It is a run of the machine. */
  lemma {:induction false} ProcessRun<T>(cfg: Config, p: Pool<T>, m: T, drain: bool, tries: nat, res: SendResult,
                                         io: bool)
    returns (evs: seq<Event<T>>)
    requires p.workers == [Got(m, drain)] && tries <= 3 && (tries == 0 <==> p.breaker.open)
    requires 0 < tries < 3 && res.SendError? ==> p.cancelled
    ensures IsRun(cfg, p, evs) && Run(cfg, p, evs) == Processed(cfg, p, m, drain, tries, res, io)
  {
    LoneStep(cfg, p, Got(m, drain), CheckCircuit(0));
    if tries == 0 {
      var q := p.(workers := [Rejecting(m, drain)]);
      evs := SettleRun(cfg, q, Rejecting(m, drain), io);
    } else {
      var q := p.(workers := [Trying(m, 0, drain)]);
      var up := TriesRun(cfg, q, m, drain, tries, res);
      var end := SettleRun(cfg, Run(cfg, q, up), LastWorker(m, drain, tries, res), io);
      RunJoin(cfg, q, up, end);
      evs := up + end;
    }
    RunAfter(cfg, p, CheckCircuit(0), evs);
    evs := [CheckCircuit(0)] + evs;
  }

  // ---------- opening and recovering, as runs ----------

  /** A lone worker with nothing to do, the circuit closed. */
  ghost predicate Resting<T>(p: Pool<T>) {
    p.workers == [Idle(false)] && p.queue == [] && !p.closed && !p.cancelled && !p.breaker.open
  }

  /** From `p` to `r` only the breaker has changed, and the books. */
  ghost predicate Rested<T>(p: Pool<T>, r: Pool<T>, b: Breaker) {
    r.workers == p.workers && r.queue == [] && r.closed == p.closed && r.cancelled == p.cancelled && r.breaker == b
  }

  /** One message, submitted and failed three times, is one recorded failure. */
  lemma FailureRun<T>(cfg: Config, p: Pool<T>, m: T) returns (evs: seq<Event<T>>)
    requires Proper(cfg) && Resting(p)
    ensures IsRun(cfg, p, evs) && Rested(p, Run(cfg, p, evs), RecordFailure(p.breaker, cfg.maxFails))
  {
    var q := p.(queue := [m], taken := p.taken + [m]);
    assert p.queue + [m] == [m];
    var g := q.(queue := [], workers := [Got(m, false)]);
    assert Apply(cfg, q, Take(0)).pool == g by {
      assert [m][1..] == [] && [Idle(false)][0 := Got(m, false)] == [Got(m, false)];
    }
    var tail := ProcessRun(cfg, g, m, false, 3, SendError, true);
    RunAfter(cfg, q, Take(0), tail);
    RunAfter(cfg, p, Submit(m, true), [Take(0)] + tail);
    evs := [Submit(m, true)] + ([Take(0)] + tail);
  }

  /** `n` failures in a row, as a run. */
  lemma {:induction false} FailuresRun<T>(cfg: Config, p: Pool<T>, m: T, n: nat) returns (evs: seq<Event<T>>)
    requires Proper(cfg) && Resting(p) && p.breaker.fails == 0 && n <= cfg.maxFails
    ensures IsRun(cfg, p, evs) && Rested(p, Run(cfg, p, evs), Failing(p.breaker, cfg.maxFails, n))
  {
    if n == 0 {
      evs := [];
    } else {
      var some := FailuresRun(cfg, p, m, n - 1);
      var mid := Run(cfg, p, some);
      assert Resting(mid) by {
        FailingCount(p.breaker, cfg.maxFails, n - 1);
      }
      var last := FailureRun(cfg, mid, m);
      RunJoin(cfg, p, some, last);
      evs := some + last;
    }
  }

  /** The history of `n` openings, each followed by a recovery. */
  function Recoveries(maxFails: nat, n: nat): seq<Note> {
    if n == 0 then [] else Recoveries(maxFails, n - 1) + Failures(maxFails) + [Reset]
  }

  /** One opening and one recovery. */
  lemma RecoveryRun<T>(cfg: Config, p: Pool<T>, m: T) returns (evs: seq<Event<T>>)
    requires Proper(cfg) && Resting(p) && p.breaker.fails == 0
    ensures IsRun(cfg, p, evs)
    ensures var r := Run(cfg, p, evs);
      Resting(r) && r.breaker.fails == 0 && r.breaker.log == p.breaker.log + Failures(cfg.maxFails) + [Reset]
  {
    var fail := FailuresRun(cfg, p, m, cfg.maxFails);
    FailingCount(p.breaker, cfg.maxFails, cfg.maxFails);
    RunPush(cfg, p, fail, ProbeTick(Healthy));
    evs := fail + [ProbeTick(Healthy)];
  }

  /** The circuit opens and recovers any number of times, in a run of the pool; and after that `maxFails` failures
      open it once more, with a live probe. */
  lemma {:induction false} RecoversAnyNumberOfTimes<T>(cfg: Config, m: T, n: nat)
    returns (evs: seq<Event<T>>, again: seq<Event<T>>)
    requires Proper(cfg)
    ensures IsRun(cfg, NewPool<T>(1), evs)
    ensures var r := Run(cfg, NewPool<T>(1), evs);
      && Resting(r) && r.breaker.fails == 0 && r.breaker.log == Recoveries(cfg.maxFails, n)
      && IsRun(cfg, r, again) && Run(cfg, r, again).breaker.open && Run(cfg, r, again).breaker.probe
  {
    evs := RecoveriesRun(cfg, m, n);
    var r := Run(cfg, NewPool<T>(1), evs);
    again := FailuresRun(cfg, r, m, cfg.maxFails);
    FailingCount(r.breaker, cfg.maxFails, cfg.maxFails);
  }

  lemma {:induction false} RecoveriesRun<T>(cfg: Config, m: T, n: nat) returns (evs: seq<Event<T>>)
    requires Proper(cfg)
    ensures IsRun(cfg, NewPool<T>(1), evs)
    ensures var r := Run(cfg, NewPool<T>(1), evs);
      Resting(r) && r.breaker.fails == 0 && r.breaker.log == Recoveries(cfg.maxFails, n)
  {
    if n == 0 {
      evs := [];
      assert NewPool<T>(1).workers == [Idle(false)];
    } else {
      var some := RecoveriesRun(cfg, m, n - 1);
      var last := RecoveryRun(cfg, Run(cfg, NewPool<T>(1), some), m);
      RunJoin(cfg, NewPool<T>(1), some, last);
      evs := some + last;
    }
  }

  // ---------- replay admission ----------

  /** `CanAcceptReplay` over exact ratios: refuse at four fifths full, slow down from one half on. */
  datatype Admission = Refused | Admitted(delayMs: nat)

  function CanAcceptReplay<T>(cfg: Config, p: Pool<T>): Admission
    requires cfg.capacity > 0
  {
    if p.closed || p.breaker.open then Refused
    else if 10 * |p.queue| >= 8 * cfg.capacity then Refused
    else if 2 * |p.queue| >= cfg.capacity then
      var raw := (1000 * |p.queue| - 500 * cfg.capacity) / cfg.capacity;
      Admitted(if raw < 10 then 10 else if raw > 300 then 300 else raw)
    else Admitted(0)
  }

  /** Admission in numbers: below four fifths full, pool and circuit in order. */
  lemma AdmittedExactly<T>(cfg: Config, p: Pool<T>)
    requires Proper(cfg)
    ensures CanAcceptReplay(cfg, p).Admitted? <==> !p.closed && !p.breaker.open && 5 * |p.queue| < 4 * cfg.capacity
  {
  }

  /** The delay in numbers: none below half full; then the milliseconds by which a thousand times the usage exceeds
      500, rounded down, but at least 10. */
  predicate DelayFits(queued: nat, capacity: nat, d: nat) {
    var excess := 1000 * queued - 500 * capacity;
    if 2 * queued < capacity then d == 0
    else if excess < 11 * capacity then d == 10
    else d * capacity <= excess < (d + 1) * capacity
  }

  lemma DelayExactly<T>(cfg: Config, p: Pool<T>)
    requires Proper(cfg) && CanAcceptReplay(cfg, p).Admitted?
    ensures DelayFits(|p.queue|, cfg.capacity, CanAcceptReplay(cfg, p).delayMs)
  {
    if 2 * |p.queue| >= cfg.capacity {
      Quotient(1000 * |p.queue| - 500 * cfg.capacity, cfg.capacity);
    }
  }

  lemma Quotient(x: nat, c: nat)
    requires c > 0 && x < 300 * c
    ensures var q := x / c; q < 300 && q * c <= x < (q + 1) * c && (q <= 10 <==> x < 11 * c)
  {
    var q := x / c;
    Within(x, c);
    Scales(q + 1, 11, c);
    Scales(11, q, c);
    Scales(300, q, c);
  }

  lemma Within(x: nat, c: nat)
    requires c > 0
    ensures (x / c) * c <= x < (x / c + 1) * c
  {
  }

  lemma Scales(a: nat, b: nat, c: nat)
    ensures a <= b ==> a * c <= b * c
  {
  }

  /** Admission is sound: an admitted message is taken by `SubmitStrict`. */
  lemma AdmittedIsTaken<T>(cfg: Config, p: Pool<T>, m: T)
    requires Proper(cfg) && CanAcceptReplay(cfg, p).Admitted?
    ensures SubmittedStrict(cfg, p, m).ok
    ensures SubmittedStrict(cfg, p, m).pool == p.(queue := p.queue + [m], strict := p.strict + [m])
  {
  }

  /** The delay is zero below half full and otherwise at least 10 and below 300: the upper clamp never fires. */
  lemma DelayRange<T>(cfg: Config, p: Pool<T>)
    requires Proper(cfg) && CanAcceptReplay(cfg, p).Admitted?
    ensures var d := CanAcceptReplay(cfg, p).delayMs;
      if 2 * |p.queue| < cfg.capacity then d == 0 else 10 <= d < 300
  {
  }

  lemma DivMonotone(a: int, b: int, c: int)
    requires 0 <= a <= b && c > 0
    ensures a / c <= b / c
  {
    var x, y := a / c, b / c;
    assert x * c <= a && b < (y + 1) * c;
    assert y + 1 <= x ==> (y + 1) * c <= x * c;
  }

  /** A fuller channel never gets a shorter delay. */
  lemma DelayMonotone<T>(cfg: Config, p: Pool<T>, q: Pool<T>)
    requires Proper(cfg) && |p.queue| <= |q.queue|
    requires CanAcceptReplay(cfg, p).Admitted? && CanAcceptReplay(cfg, q).Admitted?
    ensures CanAcceptReplay(cfg, p).delayMs <= CanAcceptReplay(cfg, q).delayMs
  {
    DelayRange(cfg, p);
    DelayRange(cfg, q);
    if 2 * |p.queue| >= cfg.capacity {
      DivMonotone(1000 * |p.queue| - 500 * cfg.capacity, 1000 * |q.queue| - 500 * cfg.capacity, cfg.capacity);
    }
  }
}
