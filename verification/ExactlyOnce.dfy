/** The pipeline runs exactly once per message, however often the message travels through the log. */
module ExactlyOnce {
  import opened Bags
  import opened Framing
  import opened Codecs
  import opened Messages
  import opened WalLog
  import opened Engine
  import P = Pools
  import A = AtLeastOnce

  /** The envelopes of all uploads, each after one pass through its project's pipeline. */
  ghost function Origins(c: Codec, uploads: seq<(Message, Message)>): set<Envelope> {
    set i | 0 <= i < |uploads| :: WireOf(c, uploads[i].1)
  }

  ghost predicate PipedOnce(g: Setup, uploads: seq<(Message, Message)>) {
    forall i :: 0 <= i < |uploads| ==> Piped(g, uploads[i].0) == Some(uploads[i].1)
  }

  ghost predicate HandlesFrom(c: Codec, xs: seq<Handle>, o: set<Envelope>) {
    forall i :: 0 <= i < |xs| ==> WireOf(c, xs[i].msg) in o
  }

  ghost predicate WorkerFrom(c: Codec, w: P.Worker<Handle>, o: set<Envelope>) {
    w.Idle? || w.Exited? || WireOf(c, w.msg.msg) in o
  }

  ghost predicate WorkersFrom(c: Codec, ws: seq<P.Worker<Handle>>, o: set<Envelope>) {
    forall i :: 0 <= i < |ws| ==> WorkerFrom(c, ws[i], o)
  }

  ghost predicate PoolFrom(c: Codec, pool: P.Pool<Handle>, o: set<Envelope>) {
    HandlesFrom(c, pool.queue, o) && WorkersFrom(c, pool.workers, o) && HandlesFrom(c, pool.delivered, o)
  }

  /** The envelopes meant for pool `p`. */
  ghost function For(g: Setup, p: nat, o: set<Envelope>): set<Envelope> {
    set v | v in o && p in FanFor(g, v.project)
  }

  ghost predicate PoolsFrom(g: Setup, pools: seq<P.Pool<Handle>>, o: set<Envelope>) {
    forall p :: 0 <= p < |pools| ==> PoolFrom(g.codec, pools[p], For(g, p, o))
  }

  ghost predicate ThreadsFrom(c: Codec, threads: seq<Thread>, o: set<Envelope>) {
    forall i :: 0 <= i < |threads| && threads[i].Running? ==> WireOf(c, threads[i].h.msg) in o
  }

  ghost predicate CallFrom(c: Codec, call: Option<Call>, o: set<Envelope>) {
    call.Some? ==> WireOf(c, call.value.h.msg) in o
  }

  /** Every entry of a queue, rebuilt as a message, looks like some upload after its pipeline. */
  ghost predicate QueueFrom(c: Codec, q: seq<(nat, Entry)>, o: set<Envelope>) {
    forall i :: 0 <= i < |q| ==> WireOf(c, FromEntry(q[i].1)) in o
  }

  ghost predicate From(g: Setup, s: State) {
    var c := g.codec;
    var o := Origins(c, s.uploads);
    PipedOnce(g, s.uploads) && QueueFrom(c, View(c, s.w), o) && PoolsFrom(g, s.pools, o)
    && ThreadsFrom(c, s.threads, o) && CallFrom(c, s.call, o)
  }

  // ---------- the log ----------

  lemma WriteFrom(c: Codec, cfg: WalLog.Config, w: Wal, m: Message, o: set<Envelope>)
    requires Lawful(c) && WalLog.Inv(c, w) && QueueFrom(c, View(c, w), o) && WireOf(c, m) in o
    requires Encodable(c, EntryOf(m))
    ensures QueueFrom(c, View(c, Write(c, cfg, w, EntryOf(m))), o)
  {
    WriteRefines(c, cfg, w, EntryOf(m));
    WireOfNormal(c, m);
  }

  lemma {:induction false} WithoutFrom(c: Codec, q: seq<(nat, Entry)>, n: nat, o: set<Envelope>)
    requires QueueFrom(c, q, o)
    ensures QueueFrom(c, Without(q, n), o)
  {
    if q != [] {
      assert QueueFrom(c, q[1..], o) by {
        assert forall i :: 0 <= i < |q[1..]| ==> q[1..][i] == q[i + 1];
      }
      WithoutFrom(c, q[1..], n, o);
    }
  }

  lemma CrashFrom(c: Codec, w: Wal, k: nat, o: set<Envelope>)
    requires Lawful(c) && WalLog.Inv(c, w) && QueueFrom(c, View(c, w), o)
    ensures QueueFrom(c, View(c, Crash(w, k)), o)
  {
    CrashRefines(c, w, k);
    ViewParts(Reader(c), w);
    CutFrom(c, Sealed(c, w), w.name, Active(c, w), Kept(c, w, k), o);
  }

  lemma CutFrom(c: Codec, before: seq<(nat, Entry)>, n: nat, es: seq<Entry>, m: nat, o: set<Envelope>)
    requires m <= |es| && QueueFrom(c, before + Tag(n, es), o)
    ensures QueueFrom(c, before + Tag(n, es[..m]), o)
  {
    assert before + Tag(n, es[..m]) <= before + Tag(n, es);
  }

  /** An entry of a segment is an entry of the log. */
  lemma {:induction false} UptoFrom(c: Codec, read: Contents, f: map<nat, Bytes>, n: nat, last: nat, i: nat,
                                    o: set<Envelope>)
    requires QueueFrom(c, Upto(read, f, last), o)
    requires 1 <= n <= last && n in f && i < |read(f[n])|
    ensures WireOf(c, FromEntry(read(f[n])[i])) in o
    decreases last
  {
    var head := Upto(read, f, last - 1);
    var q := Upto(read, f, last);
    assert q == head + Block(read, f, last);
    if n == last {
      assert q[|head| + i] == (n, read(f[n])[i]);
    } else {
      assert head <= q;
      UptoFrom(c, read, f, n, last - 1, i, o);
    }
  }

  lemma {:induction false} LineDecoded(c: Codec, ls: seq<Bytes>, i: nat) returns (j: nat)
    requires i < |ls| && DecodeLine(c, ls[i]).Some?
    ensures j < |Decode(c, ls)| && Decode(c, ls)[j] == DecodeLine(c, ls[i]).value
  {
    if i == 0 {
      j := 0;
    } else {
      j := LineDecoded(c, ls[1..], i - 1);
      if DecodeLine(c, ls[0]).Some? {
        j := j + 1;
      }
    }
  }

  lemma SegmentLine(c: Codec, read: Contents, f: map<nat, Bytes>, n: nat, last: nat, lines: seq<Bytes>,
                    ls: seq<Bytes>, i: nat, o: set<Envelope>)
    requires QueueFrom(c, Upto(read, f, last), o) && 1 <= n <= last && n in f
    requires read(f[n]) == Decode(c, lines) && ls <= lines && i < |ls| && DecodeLine(c, ls[i]).Some?
    ensures WireOf(c, FromEntry(DecodeLine(c, ls[i]).value)) in o
  {
    assert lines[i] == ls[i];
    var j := LineDecoded(c, lines, i);
    UptoFrom(c, read, f, n, last, j, o);
  }

  /** Whatever a pass decodes from a sealed segment is an entry of the log. */
  lemma LineFrom(g: Setup, s: State)
    requires Proper(g) && A.LogInv(g, s.w, s.pass) && From(g, s) && AtLine(g, s) && CurrentLine(g, s).Some?
    ensures WireOf(g.codec, FromEntry(CurrentLine(g, s).value)) in Origins(g.codec, s.uploads)
  {
    var p := s.pass.value;
    var n := p.list[p.done];
    var b := s.w.disk[n];
    assert g.scan(b).lines <= Lines(b);
    assert n < s.w.name && n != 0 && n in Files(s.w) && Files(s.w)[n] == b;
    SegmentLine(g.codec, Reader(g.codec), Files(s.w), n, s.w.name, Lines(b), g.scan(b).lines, p.line,
                Origins(g.codec, s.uploads));
  }

  // ---------- pools ----------

  lemma AfterFrom(c: Codec, pool: P.Pool<Handle>, w: P.Worker<Handle>, ev: P.Event<Handle>, o: set<Envelope>)
    requires P.WorkerEvent(ev) && P.WorkerEnabled(pool, w, ev) && WorkerFrom(c, w, o) && HandlesFrom(c, pool.queue, o)
    ensures WorkerFrom(c, P.After(pool, w, ev), o)
  {
  }

  lemma MovesFrom(c: Codec, pool: P.Pool<Handle>, r: P.Pool<Handle>, i: nat, next: P.Worker<Handle>, o: set<Envelope>)
    requires PoolFrom(c, pool, o) && i < |pool.workers|
    requires r.workers == pool.workers[i := next] && WorkerFrom(c, next, o)
    requires r.queue == pool.queue || (pool.queue != [] && r.queue == pool.queue[1..])
    requires r.delivered == pool.delivered
          || (next.Sent? && r.delivered == pool.delivered + [next.msg])
    ensures PoolFrom(c, r, o)
  {
  }

  lemma WorkedFrom(c: Codec, cfg: P.Config, pool: P.Pool<Handle>, ev: P.Event<Handle>, o: set<Envelope>)
    requires PoolFrom(c, pool, o) && P.WorkerEvent(ev) && P.Enabled(cfg, pool, ev)
    ensures PoolFrom(c, P.Worked(cfg, pool, ev).pool, o)
  {
    assert WorkerFrom(c, pool.workers[ev.i], o);
    AfterFrom(c, pool, pool.workers[ev.i], ev, o);
    P.WorkedParts(cfg, pool, ev);
    MovesFrom(c, pool, P.Worked(cfg, pool, ev).pool, ev.i, P.After(pool, pool.workers[ev.i], ev), o);
  }

  lemma WorkFrom(c: Codec, cfg: P.Config, pool: P.Pool<Handle>, ev: P.Event<Handle>, o: set<Envelope>)
    requires PoolFrom(c, pool, o) && P.Enabled(cfg, pool, ev) && !ev.Submit? && !ev.SubmitStrict?
    ensures var r := P.Apply(cfg, pool, ev);
      PoolFrom(c, r.pool, o) && (r.spill.Some? ==> WireOf(c, r.spill.value.msg) in o)
  {
    if P.WorkerEvent(ev) {
      WorkedFrom(c, cfg, pool, ev, o);
      A.WorkBooked(cfg, pool, ev);
      assert WorkerFrom(c, pool.workers[ev.i], o);
    }
  }

  lemma SubmitFrom(c: Codec, cfg: P.Config, pool: P.Pool<Handle>, h: Handle, io: bool, o: set<Envelope>)
    requires PoolFrom(c, pool, o) && WireOf(c, h.msg) in o
    ensures var r := P.Submitted(cfg, pool, h, io);
      PoolFrom(c, r.pool, o) && (r.spill.Some? ==> r.spill.value == h)
    ensures PoolFrom(c, P.SubmittedStrict(cfg, pool, h).pool, o)
  {
  }

  /** A step of one pool, its spill included. */
  lemma PooledFrom(g: Setup, s: State, i: nat, r: P.Result<Handle>)
    requires Proper(g) && WalLog.Inv(g.codec, s.w) && From(g, s) && i < |s.pools|
    requires PoolFrom(g.codec, r.pool, For(g, i, Origins(g.codec, s.uploads)))
    requires r.spill.Some? ==>
      && Encodable(g.codec, EntryOf(r.spill.value.msg))
      && WireOf(g.codec, r.spill.value.msg) in Origins(g.codec, s.uploads)
    ensures From(g, Pooled(g, s, i, r))
  {
    if r.spill.Some? {
      WriteFrom(g.codec, g.log, s.w, r.spill.value.msg, Origins(g.codec, s.uploads));
    }
  }

  // ---------- steps ----------

  lemma PoolGrown(c: Codec, pool: P.Pool<Handle>, o: set<Envelope>, o1: set<Envelope>)
    requires o <= o1 && PoolFrom(c, pool, o)
    ensures PoolFrom(c, pool, o1)
  {
  }

  lemma Grown(g: Setup, s: State, o: set<Envelope>, o1: set<Envelope>)
    requires o <= o1 && QueueFrom(g.codec, View(g.codec, s.w), o) && PoolsFrom(g, s.pools, o)
    requires ThreadsFrom(g.codec, s.threads, o) && CallFrom(g.codec, s.call, o)
    ensures QueueFrom(g.codec, View(g.codec, s.w), o1) && PoolsFrom(g, s.pools, o1)
    ensures ThreadsFrom(g.codec, s.threads, o1) && CallFrom(g.codec, s.call, o1)
  {
    forall p | 0 <= p < |s.pools| ensures PoolFrom(g.codec, s.pools[p], For(g, p, o1)) {
      PoolGrown(g.codec, s.pools[p], For(g, p, o), For(g, p, o1));
    }
  }

  lemma StartFrom(g: Setup, s: State, u: Message, r: nat)
    requires From(g, s)
    ensures From(g, Started(g, s, u, r))
  {
    if FanOf(g, u) != [] && Piped(g, u).Some? {
      var m := Piped(g, u).value;
      var more := s.uploads + [(u, m)];
      var o, o1 := Origins(g.codec, s.uploads), Origins(g.codec, more);
      assert forall i :: 0 <= i < |s.uploads| ==> s.uploads[i] == more[i];
      assert more[|s.uploads|].1 == m;
      Grown(g, s, o, o1);
    }
  }

  lemma SubmittingFrom(g: Setup, s: State, t: nat, r: nat, io: bool)
    requires Proper(g) && WalLog.Inv(g.codec, s.w) && From(g, s) && Enabled(g, s, SubmitNext(t, r, io))
    ensures From(g, Submitting(g, s, t, r, io))
  {
    var h := s.threads[t].h;
    var i := FanOf(g, h.msg)[s.threads[t].k];
    var copy := Handle(r, CopyOf(h.msg));
    WireOfCopy(g.codec, h.msg);
    SubmitFrom(g.codec, g.pools[i], s.pools[i], copy, Logged(g, io, copy.msg), For(g, i, Origins(g.codec, s.uploads)));
    A.SubmitFields(g.pools[i], s.pools[i], copy, Logged(g, io, copy.msg));
    var res := P.Submitted(g.pools[i], s.pools[i], copy, Logged(g, io, copy.msg));
    PooledFrom(g, Acquired(s, r), i, res);
    AnsweredFrom(g, Pooled(g, Acquired(s, r), i, res), t, res.ok);
  }

  lemma AnsweredFrom(g: Setup, s: State, t: nat, ok: bool)
    requires From(g, s) && t < |s.threads| && s.threads[t].Running?
    ensures From(g, Answered(s, t, ok))
  {
  }

  lemma StrictFrom(g: Setup, s: State, r: nat)
    requires Proper(g) && WalLog.Inv(g.codec, s.w) && From(g, s) && Enabled(g, s, StrictNext(r))
    ensures From(g, StrictSubmitting(g, s, r))
  {
    var h := s.call.value.h;
    var i := FanOf(g, h.msg)[s.call.value.k];
    var copy := Handle(r, CopyOf(h.msg));
    WireOfCopy(g.codec, h.msg);
    SubmitFrom(g.codec, g.pools[i], s.pools[i], copy, true, For(g, i, Origins(g.codec, s.uploads)));
    PooledFrom(g, Acquired(s, r), i, P.SubmittedStrict(g.pools[i], s.pools[i], copy));
  }

  lemma WorkingFrom(g: Setup, s: State, i: nat, ev: P.Event<Handle>)
    requires Proper(g) && WalLog.Inv(g.codec, s.w) && From(g, s) && Enabled(g, s, Work(i, ev))
    ensures From(g, Step(g, s, Work(i, ev)))
  {
    WorkFrom(g.codec, g.pools[i], s.pools[i], ev, For(g, i, Origins(g.codec, s.uploads)));
    A.WorkBooked(g.pools[i], s.pools[i], ev);
    PooledFrom(g, s, i, P.Apply(g.pools[i], s.pools[i], ev));
  }

  lemma RebornFrom(g: Setup, s: State, w: Wal, crash: bool, torn: seq<Entry>)
    requires From(g, s) && |g.workers| == |s.pools|
    requires QueueFrom(g.codec, View(g.codec, w), Origins(g.codec, s.uploads))
    ensures From(g, Reborn(g, s, w, crash).(torn := torn))
  {
  }

  lemma LogStepFrom(g: Setup, s: State, ev: Event)
    requires Proper(g) && A.LogInv(g, s.w, s.pass) && From(g, s) && Enabled(g, s, ev) && OfLog(ev)
    ensures From(g, Step(g, s, ev))
  {
    match ev
    case WalFlush(k) => FlushRefines(g.codec, s.w, k);
    case WalClose => CloseRefines(g.codec, s.w);
    case Restarted =>
      ReopenRefines(g.codec, s.w);
      RebornFrom(g, s, Restart(s.w.disk), false, s.torn);
    case Crashed(k) =>
      CrashFrom(g.codec, s.w, k, Origins(g.codec, s.uploads));
      RebornFrom(g, s, Crash(s.w, k), true, CrashedState(g, s, k).torn);
  }

  lemma FinishFrom(g: Setup, s: State, removable: bool)
    requires Proper(g) && A.LogInv(g, s.w, s.pass) && From(g, s) && Enabled(g, s, PassFinish(removable))
    ensures From(g, SegmentEnded(g, s, removable))
  {
    var n := s.pass.value.list[s.pass.value.done];
    RemoveRefines(g.codec, s.w, n);
    WithoutFrom(g.codec, View(g.codec, s.w), n, Origins(g.codec, s.uploads));
  }

  lemma ReturnFrom(g: Setup, s: State, t: nat)
    requires From(g, s) && t < |s.threads| && s.threads[t].Running?
    ensures From(g, Returned(s, t))
  {
  }

  lemma SameFrom(g: Setup, s: State, s1: State)
    requires From(g, s) && s1.uploads == s.uploads && s1.w == s.w && s1.pools == s.pools && s1.threads == s.threads
    requires s1.call == s.call || s1.call.None?
    ensures From(g, s1)
  {
  }

  lemma CalledFrom(g: Setup, s: State, r: nat)
    requires Proper(g) && A.LogInv(g, s.w, s.pass) && From(g, s) && AtLine(g, s) && CurrentLine(g, s).Some?
    ensures From(g, Called(g, s, r))
  {
    LineFrom(g, s);
  }

  lemma DispatchStepFrom(g: Setup, s: State, ev: Event)
    requires Proper(g) && A.LogInv(g, s.w, s.pass) && From(g, s) && Enabled(g, s, ev) && OfDispatch(ev)
    ensures From(g, Step(g, s, ev))
  {
    match ev
    case Start(u, r) => StartFrom(g, s, u, r);
    case SubmitNext(t, r, io) => SubmittingFrom(g, s, t, r, io);
    case Return(t) => ReturnFrom(g, s, t);
    case Work(i, e) => WorkingFrom(g, s, i, e);
  }

  lemma PassStepFrom(g: Setup, s: State, ev: Event)
    requires Proper(g) && A.LogInv(g, s.w, s.pass) && From(g, s) && Enabled(g, s, ev) && OfPass(ev)
    ensures From(g, Step(g, s, ev))
  {
    if ev.PassFinish? {
      FinishFrom(g, s, ev.removable);
    } else {
      SameFrom(g, s, Step(g, s, ev));
    }
  }

  lemma CallbackStepFrom(g: Setup, s: State, ev: Event)
    requires Proper(g) && A.LogInv(g, s.w, s.pass) && From(g, s) && Enabled(g, s, ev) && OfCallback(ev)
    ensures From(g, Step(g, s, ev))
  {
    match ev
    case PassCall(r) => CalledFrom(g, s, r);
    case StrictNext(r) => StrictFrom(g, s, r);
    case CallReturn => SameFrom(g, s, CallEnded(s));
  }

  lemma StepFrom(g: Setup, s: State, ev: Event)
    requires Proper(g) && A.LogInv(g, s.w, s.pass) && From(g, s) && Enabled(g, s, ev)
    ensures From(g, Step(g, s, ev))
  {
    if OfDispatch(ev) {
      DispatchStepFrom(g, s, ev);
    } else if OfPass(ev) {
      PassStepFrom(g, s, ev);
    } else if OfCallback(ev) {
      CallbackStepFrom(g, s, ev);
    } else {
      LogStepFrom(g, s, ev);
    }
  }

  lemma {:induction false} RunFrom(g: Setup, s: State, q: string, p: nat, evs: seq<Event>)
    requires A.Inv(g, s, q, p) && From(g, s) && IsRun(g, s, evs)
    ensures From(g, Run(g, s, evs))
    decreases |evs|
  {
    if evs != [] {
      A.StepKeeps(g, s, q, p, evs[0]);
      StepFrom(g, s, evs[0]);
      RunFrom(g, Step(g, s, evs[0]), q, p, evs[1..]);
    }
  }

  /** Whatever a pool has handed to its sink: delivered, or under a try that may yet fail, time out or panic. */
  ghost predicate Handed(pool: P.Pool<Handle>, h: Handle) {
    || (exists i :: 0 <= i < |pool.delivered| && pool.delivered[i] == h)
    || (exists i :: 0 <= i < |pool.workers| && pool.workers[i].Trying? && pool.workers[i].msg == h)
  }

  lemma HandedFrom(c: Codec, pool: P.Pool<Handle>, o: set<Envelope>, h: Handle)
    requires PoolFrom(c, pool, o) && Handed(pool, h)
    ensures WireOf(c, h.msg) in o
  {
    if i :| 0 <= i < |pool.workers| && pool.workers[i].Trying? && pool.workers[i].msg == h {
      assert WorkerFrom(c, pool.workers[i], o);
    }
  }

  /** Exactly once: in every state of every run, crashes included, whatever a pool hands to its sink, in a try that
      succeeds or one that does not, is, to the sink, one of the uploads meant for that pool with the project's chain
      applied to it once. */
  lemma {:induction false} PipelineExactlyOnce(g: Setup, evs: seq<Event>, q: string, p: nat, h: Handle)
    requires Proper(g) && p < |g.pools| && A.Routed(g, q, p) && IsRun(g, Init(g), evs)
    requires p < |Run(g, Init(g), evs).pools| && Handed(Run(g, Init(g), evs).pools[p], h)
    ensures var s := Run(g, Init(g), evs);
      exists j :: 0 <= j < |s.uploads|
        && Piped(g, s.uploads[j].0) == Some(s.uploads[j].1)
        && p in FanOf(g, s.uploads[j].1)
        && WireOf(g.codec, h.msg) == WireOf(g.codec, s.uploads[j].1)
  {
    A.InitKeeps(g, q, p);
    RunFrom(g, Init(g), q, p, evs);
    var s := Run(g, Init(g), evs);
    HandedFrom(g.codec, s.pools[p], For(g, p, Origins(g.codec, s.uploads)), h);
  }
}
