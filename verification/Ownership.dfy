/** Who owns a pooled message object. Over every run each object is in exactly one place: put back once, or in
    the hands of one dispatch, one callback, one channel slot or one worker, or leaked by a failed pipeline run. */
module Ownership {
  import opened Bags
  import opened Messages
  import opened Engine
  import P = Pools
  import WalLog

  function Ref(h: Handle): multiset<nat> {
    multiset{h.ref}
  }

  ghost function ByPool(): P.Pool<Handle> -> multiset<nat> {
    (p: P.Pool<Handle>) => P.Owned(p, Ref)
  }

  function ThreadRef(t: Thread): multiset<nat> {
    if t.Running? then multiset{t.h.ref} else multiset{}
  }

  function CallRef(call: Option<Call>): multiset<nat> {
    if call.Some? then multiset{call.value.h.ref} else multiset{}
  }

  /** Every object in use and every object put back, counted. */
  ghost function Held(pools: seq<P.Pool<Handle>>, threads: seq<Thread>, call: Option<Call>,
                      free: multiset<nat>): multiset<nat> {
    Sum(pools, ByPool()) + Sum(threads, ThreadRef) + CallRef(call) + free
  }

  ghost function All(s: State): multiset<nat> {
    Held(s.pools, s.threads, s.call, s.free)
  }

  /** Exactly the objects from `base` on, up to `next`, each once. */
  ghost predicate Whole(m: multiset<nat>, base: nat, next: nat) {
    base <= next && forall r: nat :: m[r] == if base <= r < next then 1 else 0
  }

  ghost predicate Unique(s: State) {
    Whole(All(s) + s.leaked, s.base, s.next)
  }

  ghost function Used(s: State): multiset<nat> {
    Sum(s.pools, ByPool()) + Sum(s.threads, ThreadRef) + CallRef(s.call)
  }

  /** The object handed out is nowhere else. */
  lemma AcquireFits(s: State, r: nat)
    requires Unique(s) && Available(s, r)
    ensures var a := Acquired(s, r); Whole(All(a) + multiset{r} + s.leaked, a.base, a.next)
    ensures r !in Used(s)
  {
    var used := Used(s);
    var a := Acquired(s, r);
    assert All(s) == used + s.free && All(a) == used + a.free;
    assert (All(s) + s.leaked)[r] <= 1;
    forall x: nat ensures (All(a) + multiset{r} + s.leaked)[x] == if a.base <= x < a.next then 1 else 0 {
      assert (All(s) + s.leaked)[x] == if s.base <= x < s.next then 1 else 0;
    }
  }

  // ---------- moves that keep the count ----------

  lemma Exchange<K>(sum: multiset<K>, sum1: multiset<K>, was: multiset<K>, now: multiset<K>, freed: multiset<K>,
                    m: multiset<K>, t: multiset<K>, c: multiset<K>, f: multiset<K>)
    requires sum1 + was == sum + now && now + freed == was + m
    ensures sum1 + t + c + (f + freed) == (sum + t + c + f) + m
  {
    forall k ensures (sum1 + t + c + (f + freed))[k] == ((sum + t + c + f) + m)[k] {
      assert (sum1 + was)[k] == (sum + now)[k];
      assert (now + freed)[k] == (was + m)[k];
    }
  }

  /** A pool's step: what it takes in it owns or has put back. */
  lemma PooledHeld(g: Setup, s: State, i: nat, r: P.Result<Handle>, m: multiset<nat>)
    requires i < |s.pools| && P.Owned(r.pool, Ref) + P.Of(r.freed, Ref) == P.Owned(s.pools[i], Ref) + m
    ensures All(Pooled(g, s, i, r)) == All(s) + m
  {
    var s1 := Pooled(g, s, i, r);
    SumUpdate(s.pools, i, r.pool, ByPool());
    Exchange(Sum(s.pools, ByPool()), Sum(s1.pools, ByPool()), P.Owned(s.pools[i], Ref), P.Owned(r.pool, Ref),
             P.Of(r.freed, Ref), m, Sum(s.threads, ThreadRef), CallRef(s.call), s.free);
    assert s1.free == s.free + P.Of(r.freed, Ref);
  }

  lemma ThreadMoves(threads: seq<Thread>, t: nat, next: Thread)
    requires t < |threads| && threads[t].Running?
    ensures next.Running? && next.h == threads[t].h ==> Sum(threads[t := next], ThreadRef) == Sum(threads, ThreadRef)
    ensures next.Ended? ==> Sum(threads[t := next], ThreadRef) + multiset{threads[t].h.ref} == Sum(threads, ThreadRef)
  {
    SumUpdate(threads, t, next, ThreadRef);
    if next.Running? && next.h == threads[t].h {
      P.Cancel1(Sum(threads[t := next], ThreadRef), Sum(threads, ThreadRef), ThreadRef(next));
    }
  }

  /** A dispatch ends and puts its message back. */
  lemma EndedHeld(s: State, t: nat)
    requires t < |s.threads| && s.threads[t].Running?
    ensures Held(s.pools, s.threads[t := Ended], s.call, s.free + multiset{s.threads[t].h.ref}) == All(s)
  {
    ThreadMoves(s.threads, t, Ended);
    Swap(Sum(s.pools, ByPool()), Sum(s.threads, ThreadRef), Sum(s.threads[t := Ended], ThreadRef), CallRef(s.call),
         s.free, multiset{s.threads[t].h.ref});
  }

  lemma AnsweredHeld(s: State, t: nat, ok: bool)
    requires t < |s.threads| && s.threads[t].Running?
    ensures All(Answered(s, t, ok)) == All(s) && Answered(s, t, ok).next == s.next
  {
    if ok {
      ThreadMoves(s.threads, t, Running(s.threads[t].h, s.threads[t].k + 1));
    } else {
      EndedHeld(s, t);
    }
  }

  lemma Swap<K>(p: multiset<K>, t: multiset<K>, t1: multiset<K>, c: multiset<K>, f: multiset<K>, m: multiset<K>)
    ensures t1 + m == t ==> p + t1 + c + (f + m) == p + t + c + f
    ensures p + (t + m) + c + f == (p + t + c + f) + m
    ensures p + t + m + f == (p + t + multiset{} + f) + m
    ensures p + t + c + (f + m) == (p + t + c + f) + m
    ensures p + t + multiset{} + (f + m) == p + t + m + f
  {
  }

  lemma CallAnsweredHeld(s: State, c: Call, ok: bool)
    requires s.call == Some(c)
    ensures All(CallAnswered(s, c, ok)) == All(s) && CallAnswered(s, c, ok).next == s.next
  {
  }

  lemma CallEndedHeld(s: State)
    requires s.call.Some? && s.pass.Some?
    ensures All(CallEnded(s)) == All(s)
  {
  }

  // ---------- steps ----------

  /** An object just acquired goes to a dispatch, or back, or is leaked by a failed pipeline run. */
  lemma StartedHeld(g: Setup, s: State, u: Message, r: nat)
    ensures Gets(s, Started(g, s, u, r), r)
  {
    var a := Acquired(s, r);
    if FanOf(g, u) != [] && Piped(g, u).Some? {
      SumPush(s.threads, Running(Handle(r, Piped(g, u).value), 0), ThreadRef);
    }
    Swap(Sum(s.pools, ByPool()), Sum(s.threads, ThreadRef), multiset{}, CallRef(s.call), a.free, multiset{r});
  }

  lemma SubmittingHeld(g: Setup, s: State, t: nat, r: nat, io: bool)
    requires Enabled(g, s, SubmitNext(t, r, io))
    ensures Gets(s, Submitting(g, s, t, r, io), r)
  {
    var h := s.threads[t].h;
    var i := FanOf(g, h.msg)[s.threads[t].k];
    var copy := Handle(r, CopyOf(h.msg));
    var res := P.Submitted(g.pools[i], s.pools[i], copy, Logged(g, io, copy.msg));
    P.SubmittedOwns(g.pools[i], s.pools[i], copy, Logged(g, io, copy.msg), Ref);
    var a := Acquired(s, r);
    PooledHeld(g, a, i, res, multiset{r});
    AnsweredHeld(Pooled(g, a, i, res), t, res.ok);
  }

  lemma StrictHeld(g: Setup, s: State, r: nat)
    requires Enabled(g, s, StrictNext(r))
    ensures Gets(s, StrictSubmitting(g, s, r), r)
  {
    var c := s.call.value;
    var i := FanOf(g, c.h.msg)[c.k];
    var copy := Handle(r, CopyOf(c.h.msg));
    var res := P.SubmittedStrict(g.pools[i], s.pools[i], copy);
    P.SubmittedOwns(g.pools[i], s.pools[i], copy, true, Ref);
    var a := Acquired(s, r);
    PooledHeld(g, a, i, res, multiset{r});
    CallAnsweredHeld(Pooled(g, a, i, res), c, res.ok);
  }

  lemma CalledHeld(g: Setup, s: State, r: nat)
    requires AtLine(g, s) && CurrentLine(g, s).Some?
    ensures Gets(s, Called(g, s, r), r)
  {
  }

  lemma WorkHeld(g: Setup, s: State, i: nat, ev: P.Event<Handle>)
    requires Enabled(g, s, Work(i, ev))
    ensures All(Step(g, s, Work(i, ev))) == All(s)
  {
    var r := P.Apply(g.pools[i], s.pools[i], ev);
    assert P.Owned(r.pool, Ref) + P.Of(r.freed, Ref) == P.Owned(s.pools[i], Ref) + multiset{} by {
      if P.WorkerEvent(ev) {
        P.WorkedOwns(g.pools[i], s.pools[i], ev, Ref);
      }
    }
    PooledHeld(g, s, i, r, multiset{});
  }

  lemma {:induction false} NothingOwned(pools: seq<P.Pool<Handle>>)
    requires forall i :: 0 <= i < |pools| ==> Renewable(pools[i])
    ensures Sum(pools, ByPool()) == multiset{}
  {
    if pools != [] {
      P.NewWorkers(pools[0].workers, Ref);
      NothingOwned(pools[1..]);
    }
  }

  predicate Renewable(p: P.Pool<Handle>) {
    p.queue == [] && forall i :: 0 <= i < |p.workers| ==> p.workers[i].Idle?
  }

  lemma RebornHeld(g: Setup, s: State, w: WalLog.Wal, crash: bool)
    requires |g.workers| == |s.pools|
    ensures var s1 := Reborn(g, s, w, crash); All(s1) + s1.leaked == multiset{} && s1.base == s1.next
  {
    NothingOwned(Reborn(g, s, w, crash).pools);
  }

  /** From `s` to `s1` the objects are the same, and `r` newly acquired. */
  ghost predicate Gets(s: State, s1: State, r: nat) {
    && All(s1) + s1.leaked == All(Acquired(s, r)) + multiset{r} + s.leaked
    && s1.next == Acquired(s, r).next && s1.base == s.base
  }

  lemma GetsUnique(s: State, s1: State, r: nat)
    requires Unique(s) && Available(s, r) && Gets(s, s1, r)
    ensures Unique(s1)
  {
    AcquireFits(s, r);
  }

  lemma AcquiringUnique(g: Setup, s: State, ev: Event)
    requires Unique(s) && Enabled(g, s, ev) && (ev.Start? || ev.SubmitNext? || ev.PassCall? || ev.StrictNext?)
    ensures Unique(Step(g, s, ev))
  {
    match ev {
      case Start(u, r) => StartedHeld(g, s, u, r);
      case SubmitNext(t, r, io) => SubmittingHeld(g, s, t, r, io);
      case PassCall(r) => CalledHeld(g, s, r);
      case StrictNext(r) => StrictHeld(g, s, r);
    }
    GetsUnique(s, Step(g, s, ev), ev.r);
  }

  lemma StepUnique(g: Setup, s: State, ev: Event)
    requires Unique(s) && Enabled(g, s, ev)
    ensures Unique(Step(g, s, ev))
  {
    match ev
    case Return(t) => EndedHeld(s, t);
    case Work(i, e) => WorkHeld(g, s, i, e);
    case CallReturn => CallEndedHeld(s);
    case Restarted => RebornHeld(g, s, WalLog.Restart(s.w.disk), false);
    case Crashed(k) => RebornHeld(g, s, WalLog.Crash(s.w, k), true);
    case WalFlush(_) =>
    case WalClose =>
    case PassBegin(_) =>
    case PassSkip =>
    case PassRefuse =>
    case PassFinish(_) =>
    case _ => AcquiringUnique(g, s, ev);
  }

  lemma {:induction false} RunUnique(g: Setup, s: State, evs: seq<Event>)
    requires Unique(s) && IsRun(g, s, evs)
    ensures Unique(Run(g, s, evs))
    decreases |evs|
  {
    if evs != [] {
      StepUnique(g, s, evs[0]);
      RunUnique(g, Step(g, s, evs[0]), evs[1..]);
    }
  }

  lemma InitUnique(g: Setup)
    requires |g.workers| == |g.pools|
    ensures Unique(Init(g))
  {
    NothingOwned(Init(g).pools);
    assert All(Init(g)) == multiset{};
  }

  lemma UniqueMeans(s: State, r: nat)
    requires Unique(s)
    ensures Used(s)[r] + s.free[r] + s.leaked[r] == if s.base <= r < s.next then 1 else 0
    ensures Available(s, r) ==> r !in Used(s)
  {
    assert (All(s) + s.leaked)[r] == if s.base <= r < s.next then 1 else 0;
    if Available(s, r) {
      AcquireFits(s, r);
    }
  }

  /** Ownership over every run: each object the running process allocated is in exactly one place, in use by one
      holder, or put back once, or leaked by a failed pipeline run; so none is put back twice, none is in use twice,
      none is lost otherwise. What the pool hands out next is in nobody's hands: anything put back, or a new one. */
  lemma OwnedExactlyOnce(g: Setup, evs: seq<Event>, r: nat)
    requires |g.workers| == |g.pools| && IsRun(g, Init(g), evs)
    ensures var s := Run(g, Init(g), evs);
      && Used(s)[r] + s.free[r] + s.leaked[r] == (if s.base <= r < s.next then 1 else 0)
      && (Available(s, r) ==> r !in Used(s))
      && (forall u :: Enabled(g, s, Start(u, r)) <==> r in s.free || r == s.next)
  {
    InitUnique(g);
    RunUnique(g, Init(g), evs);
    UniqueMeans(Run(g, Init(g), evs), r);
    RunPools(g, Init(g), evs);
  }

  lemma {:induction false} RunPools(g: Setup, s: State, evs: seq<Event>)
    requires |s.pools| == |g.pools| == |g.workers| && IsRun(g, s, evs)
    ensures |Run(g, s, evs).pools| == |g.pools|
    decreases |evs|
  {
    if evs != [] {
      StepPools(g, s, evs[0]);
      RunPools(g, Step(g, s, evs[0]), evs[1..]);
    }
  }

  lemma StepPools(g: Setup, s: State, ev: Event)
    requires Enabled(g, s, ev)
    ensures |Step(g, s, ev).pools| == |s.pools|
  {
  }
}
