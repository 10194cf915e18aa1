/** The delivery engine as one step machine: uploads being dispatched, worker pools, the write-ahead log,
    and the replay loop feeding the log back into the pools. Every submit to a pool, every worker
    action, every line replayed and every deletion is a step of its own, in any interleaving. */
module Engine {
  import opened Bags
  import opened Codecs
  import opened Messages
  import opened WalLog
  import opened ReplayRuns
  import Breakers
  import P = Pools
  import Replay
  import WalSizes

  /** A pooled message object: its identity and its present contents. */
  datatype Handle = Handle(ref: nat, msg: Message)

  /** A `Dispatch` under way: its message, already through the pipeline, and how many pools took a copy. */
  datatype Thread = Running(h: Handle, k: nat) | Ended

  /** A replay callback inside `DispatchStrict`. */
  datatype Call = Call(h: Handle, k: nat)

  /** `fan` lists the pools of each project. `chain` is the project's pipeline on payloads; `None` is a
      failed run. */
  datatype Setup = Setup(
    codec: Codec,
    log: WalLog.Config,
    scan: Splitter,
    pools: seq<P.Config>,
    workers: seq<nat>,
    fan: map<string, seq<nat>>,
    chain: (string, Data) -> Option<Data>)

  /** `free` and `next` are the message pool: released objects, each as often as it was put back, and the
      first object never allocated. `base` is the first object of the running process, `leaked` are those its
      failed pipeline runs dropped.
      The last four fields are history: uploads before and after the pipeline, dispatches that returned
      nil, entries of deleted segments, entries torn by crashes. */
  datatype State = State(
    w: Wal,
    pass: Option<Pass>,
    call: Option<Call>,
    pools: seq<P.Pool<Handle>>,
    threads: seq<Thread>,
    free: multiset<nat>,
    next: nat,
    base: nat,
    leaked: multiset<nat>,
    uploads: seq<(Message, Message)>,
    acked: seq<Message>,
    deleted: seq<Entry>,
    torn: seq<Entry>)

  datatype Event =
    | Start(u: Message, r: nat)
    | SubmitNext(t: nat, r: nat, io: bool)
    | Return(t: nat)
    | Work(p: nat, ev: P.Event<Handle>)
    | WalFlush(k: nat)
    | WalClose
    | PassBegin(list: seq<nat>)
    | PassSkip
    | PassRefuse
    | PassCall(r: nat)
    | StrictNext(r: nat)
    | CallReturn
    | PassFinish(removable: bool)
    | Restarted
    | Crashed(k: nat)

  // Four kinds of steps.

  predicate OfDispatch(ev: Event) {
    ev.Start? || ev.SubmitNext? || ev.Return? || ev.Work?
  }

  predicate OfPass(ev: Event) {
    ev.PassBegin? || ev.PassSkip? || ev.PassRefuse? || ev.PassFinish?
  }

  predicate OfCallback(ev: Event) {
    ev.PassCall? || ev.StrictNext? || ev.CallReturn?
  }

  predicate OfLog(ev: Event) {
    ev.WalFlush? || ev.WalClose? || ev.Restarted? || ev.Crashed?
  }

  ghost predicate Proper(g: Setup) {
    Lawful(g.codec) && Complete(g.scan) && Wired(g)
  }

  ghost predicate Wired(g: Setup) {
    && |g.workers| == |g.pools|
    && (forall i :: 0 <= i < |g.pools| ==> P.Proper(g.pools[i]))
    && (forall q :: q in g.fan ==> forall i :: 0 <= i < |g.fan[q]| ==> g.fan[q][i] < |g.pools|)
  }

  /** A setup with the scanner the gateway configures. */
  ghost predicate Configured(g: Setup) {
    Lawful(g.codec) && g.scan == Scanner(WalSizes.ReplayCap(g.log.maxSegment)) && Wired(g)
  }

  lemma ConfiguredIsProper(g: Setup)
    requires Configured(g)
    ensures Proper(g)
  {
    ScannerComplete(WalSizes.ReplayCap(g.log.maxSegment));
  }

  /** No pools for an unknown project, nor for the empty name, whatever the configuration says. */
  function FanFor(g: Setup, q: string): seq<nat> {
    if q != "" && q in g.fan then g.fan[q] else []
  }

  function FanOf(g: Setup, m: Message): seq<nat> {
    FanFor(g, m.project)
  }

  /** The message pool: a released object is handed out again, or a new one is made. */
  predicate Available(s: State, r: nat) {
    r in s.free || r == s.next
  }

  function Acquired(s: State, r: nat): State {
    s.(free := s.free - multiset{r}, next := if r == s.next then s.next + 1 else s.next)
  }

  function Released(s: State, r: nat): State {
    s.(free := s.free + multiset{r})
  }

  function Logged(g: Setup, io: bool, m: Message): bool {
    io && Encodable(g.codec, EntryOf(m))
  }

  /** A step of pool `p`, with its effects on the log and the message pool. */
  ghost function Pooled(g: Setup, s: State, p: nat, r: P.Result<Handle>): State
    requires p < |s.pools|
  {
    s.(pools := s.pools[p := r.pool],
       w := if r.spill.Some? then Write(g.codec, g.log, s.w, EntryOf(r.spill.value.msg)) else s.w,
       free := if r.freed.Some? then s.free + multiset{r.freed.value.ref} else s.free)
  }

  /** The message after the pipeline. */
  function Piped(g: Setup, u: Message): Option<Message> {
    match g.chain(u.project, u.data)
    case None => None
    case Some(d) => Some(u.(data := d))
  }

  /** `Dispatch` up to the fan-out. A failed pipeline run leaks the message object. */
  function Started(g: Setup, s: State, u: Message, r: nat): State {
    if FanOf(g, u) == [] then Released(Acquired(s, r), r)
    else
      match Piped(g, u)
      case None => Acquired(s, r).(leaked := s.leaked + multiset{r})
      case Some(m) =>
        Acquired(s, r).(threads := s.threads + [Running(Handle(r, m), 0)], uploads := s.uploads + [(u, m)])
  }

  /** An upload for the empty name, an unknown project or one without pools is refused, its object put back; one whose
      chain fails is dropped with its object; any other is under way, with all pools of the project to serve. */
  lemma StartExactly(g: Setup, s: State, u: Message, r: nat)
    ensures var s1 := Started(g, s, u, r); var d := g.chain(u.project, u.data);
      if u.project == "" || u.project !in g.fan || g.fan[u.project] == [] then
        s1.threads == s.threads && s1.uploads == s.uploads && s1.leaked == s.leaked && r in s1.free
      else if d.None? then
        s1.threads == s.threads && s1.uploads == s.uploads && s1.leaked == s.leaked + multiset{r}
      else
        var m := u.(data := d.value);
        && s1.threads == s.threads + [Running(Handle(r, m), 0)] && s1.uploads == s.uploads + [(u, m)]
        && s1.leaked == s.leaked && FanOf(g, m) == g.fan[u.project]
  {
  }

  /** One turn of the fan-out loop: copy, submit, and on error release and give up. */
  ghost function Submitting(g: Setup, s: State, t: nat, r: nat, io: bool): State
    requires t < |s.threads| && s.threads[t].Running?
    requires var fan := FanOf(g, s.threads[t].h.msg);
      s.threads[t].k < |fan| && fan[s.threads[t].k] < |s.pools| == |g.pools|
  {
    var th := s.threads[t];
    var p := FanOf(g, th.h.msg)[th.k];
    var copy := Handle(r, CopyOf(th.h.msg));
    var res := P.Submitted(g.pools[p], s.pools[p], copy, Logged(g, io, copy.msg));
    Answered(Pooled(g, Acquired(s, r), p, res), t, res.ok)
  }

  /** A dispatch goes on after a nil reply; after an error it releases its message and ends. */
  function Answered(s: State, t: nat, ok: bool): State
    requires t < |s.threads| && s.threads[t].Running?
  {
    var th := s.threads[t];
    if ok then s.(threads := s.threads[t := Running(th.h, th.k + 1)])
    else Released(s.(threads := s.threads[t := Ended]), th.h.ref)
  }

  function Returned(s: State, t: nat): State
    requires t < |s.threads| && s.threads[t].Running?
  {
    var h := s.threads[t].h;
    Released(s.(threads := s.threads[t := Ended], acked := s.acked + [h.msg]), h.ref)
  }

  /** The message whose rejection a worker event decides. */
  predicate ProperIo(g: Setup, p: P.Pool<Handle>, ev: P.Event<Handle>) {
    ev.Reject? && ev.i < |p.workers| && p.workers[ev.i].Rejecting? ==>
      (ev.io ==> Encodable(g.codec, EntryOf(p.workers[ev.i].msg.msg)))
  }

  // ---------- replay ----------

  /** The line the pass is at. */
  predicate AtLine(g: Setup, s: State) {
    && s.pass.Some? && s.call.None? && s.pass.value.done < |s.pass.value.list|
    && s.pass.value.list[s.pass.value.done] in s.w.disk
    && s.pass.value.line < |Scanned(g.scan, s.w, s.pass.value).lines|
  }

  function CurrentLine(g: Setup, s: State): Option<Entry>
    requires AtLine(g, s)
  {
    DecodeLine(g.codec, Scanned(g.scan, s.w, s.pass.value).lines[s.pass.value.line])
  }

  predicate AtEnd(g: Setup, s: State) {
    && s.pass.Some? && s.call.None? && s.pass.value.done < |s.pass.value.list|
    && s.pass.value.list[s.pass.value.done] in s.w.disk
    && s.pass.value.line == |Scanned(g.scan, s.w, s.pass.value).lines|
  }

  /** The callback past its admission check: the entry becomes a message; without pools for its project
      `DispatchStrict` fails at once. */
  function Called(g: Setup, s: State, r: nat): State
    requires AtLine(g, s) && CurrentLine(g, s).Some?
  {
    var m := FromEntry(CurrentLine(g, s).value);
    if FanOf(g, m) == [] then Released(Acquired(s, r), r).(pass := None)
    else Acquired(s, r).(call := Some(Call(Handle(r, m), 0)))
  }

  ghost function StrictSubmitting(g: Setup, s: State, r: nat): State
    requires s.call.Some?
    requires var fan := FanOf(g, s.call.value.h.msg);
      s.call.value.k < |fan| && fan[s.call.value.k] < |s.pools| == |g.pools|
  {
    var c := s.call.value;
    var p := FanOf(g, c.h.msg)[c.k];
    var copy := Handle(r, CopyOf(c.h.msg));
    var res := P.SubmittedStrict(g.pools[p], s.pools[p], copy);
    CallAnswered(Pooled(g, Acquired(s, r), p, res), c, res.ok)
  }

  /** After an error the callback releases its message and the pass is over. */
  function CallAnswered(s: State, c: Call, ok: bool): State {
    if ok then s.(call := Some(Call(c.h, c.k + 1)))
    else Released(s.(call := None, pass := None), c.h.ref)
  }

  function CallEnded(s: State): State
    requires s.call.Some? && s.pass.Some?
  {
    Released(s.(call := None, pass := Some(Advanced(s.pass.value))), s.call.value.h.ref)
  }

  ghost function SegmentEnded(g: Setup, s: State, removable: bool): State
    requires AtEnd(g, s)
  {
    var p := s.pass.value;
    var n := p.list[p.done];
    if Scanned(g.scan, s.w, p).tooLong then s.(pass := None)
    else if removable then
      s.(w := Remove(s.w, n), pass := Some(Finished(p, true)), deleted := s.deleted + Entries(g.codec, s.w.disk[n]))
    else s.(pass := Some(Finished(p, false)))
  }

  // ---------- process ends ----------

  /** A pool of the next process, with the books of the old one. */
  function Renewed(p: P.Pool<Handle>, workers: nat, lost: seq<Handle>): P.Pool<Handle> {
    p.(queue := [], workers := seq(workers, _ => P.Idle(false)), closed := false, cancelled := false,
       channelClosed := false, breaker := Breakers.CLOSED, lost := p.lost + lost)
  }

  predicate Idle(p: P.Pool<Handle>) {
    p.queue == [] && forall i :: 0 <= i < |p.workers| ==> p.workers[i].Exited?
  }

  /** The orderly end of `Run`: no request or callback under way, all pools drained, the log closed. */
  predicate ShutDown(s: State) {
    && (forall i :: 0 <= i < |s.threads| ==> s.threads[i].Ended?)
    && (forall i :: 0 <= i < |s.pools| ==> Idle(s.pools[i]))
    && s.call.None? && !s.w.open
  }

  /** What a dying process takes with it from one pool. */
  function Carried(ws: seq<P.Worker<Handle>>): seq<Handle> {
    if ws == [] then [] else
      (if ws[0].Idle? || ws[0].Exited? || ws[0].Sent? then [] else [ws[0].msg]) + Carried(ws[1..])
  }

  ghost function Reborn(g: Setup, s: State, w: Wal, crash: bool): State
    requires |g.workers| == |s.pools|
  {
    s.(w := w, pass := None, call := None, threads := [], free := multiset{}, base := s.next, leaked := multiset{},
       pools := seq(|s.pools|, i requires 0 <= i < |s.pools| =>
         Renewed(s.pools[i], g.workers[i], if crash then s.pools[i].queue + Carried(s.pools[i].workers) else [])))
  }

  ghost function CrashedState(g: Setup, s: State, k: nat): State
    requires |g.workers| == |s.pools| && Lawful(g.codec) && WalLog.Inv(g.codec, s.w)
  {
    Reborn(g, s, Crash(s.w, k), true).(torn := s.torn + Active(g.codec, s.w)[Kept(g.codec, s.w, k)..])
  }

  // ---------- the machine ----------

  ghost predicate Enabled(g: Setup, s: State, ev: Event) {
    && |s.pools| == |g.pools| == |g.workers|
    && match ev
       case Start(_, r) => Available(s, r)
       case SubmitNext(t, r, _) =>
         && t < |s.threads| && s.threads[t].Running? && Available(s, r)
         && var fan := FanOf(g, s.threads[t].h.msg);
            s.threads[t].k < |fan| && fan[s.threads[t].k] < |s.pools|
       case Return(t) =>
         t < |s.threads| && s.threads[t].Running? && s.threads[t].k == |FanOf(g, s.threads[t].h.msg)|
       case Work(p, e) =>
         && p < |s.pools| && !e.Submit? && !e.SubmitStrict?
         && P.Enabled(g.pools[p], s.pools[p], e) && ProperIo(g, s.pools[p], e)
       case WalFlush(_) => true
       case WalClose => true
       case PassBegin(list) => s.call.None? && Over(s.pass) && Replay.Lists(list, s.w.disk.Keys - {s.w.name})
       case PassSkip => AtLine(g, s) && CurrentLine(g, s).None?
       case PassRefuse => AtLine(g, s) && CurrentLine(g, s).Some?
       case PassCall(r) => AtLine(g, s) && CurrentLine(g, s).Some? && Available(s, r)
       case StrictNext(r) =>
         && s.call.Some? && Available(s, r)
         && var fan := FanOf(g, s.call.value.h.msg);
            s.call.value.k < |fan| && fan[s.call.value.k] < |s.pools|
       case CallReturn => s.call.Some? && s.pass.Some? && s.call.value.k == |FanOf(g, s.call.value.h.msg)|
       case PassFinish(_) => AtEnd(g, s)
       case Restarted => ShutDown(s)
       case Crashed(_) => Lawful(g.codec) && WalLog.Inv(g.codec, s.w)
  }

  ghost function Step(g: Setup, s: State, ev: Event): State
    requires Enabled(g, s, ev)
  {
    match ev
    case Start(u, r) => Started(g, s, u, r)
    case SubmitNext(t, r, io) => Submitting(g, s, t, r, io)
    case Return(t) => Returned(s, t)
    case Work(p, e) => Pooled(g, s, p, P.Apply(g.pools[p], s.pools[p], e))
    case WalFlush(k) => s.(w := Flush(s.w, k))
    case WalClose => s.(w := Close(s.w))
    case PassBegin(list) => s.(pass := Some(Begun(s.w, list)))
    case PassSkip => s.(pass := Some(Advanced(s.pass.value)))
    case PassRefuse => s.(pass := None)
    case PassCall(r) => Called(g, s, r)
    case StrictNext(r) => StrictSubmitting(g, s, r)
    case CallReturn => CallEnded(s)
    case PassFinish(removable) => SegmentEnded(g, s, removable)
    case Restarted => Reborn(g, s, Restart(s.w.disk), false)
    case Crashed(k) => CrashedState(g, s, k)
  }

  ghost function Init(g: Setup): State
    requires |g.workers| == |g.pools|
  {
    State.State(Restart(map[]), None, None,
          seq(|g.pools|, i requires 0 <= i < |g.pools| => P.NewPool(g.workers[i])),
          [], multiset{}, 0, 0, multiset{}, [], [], [], [])
  }

  ghost predicate IsRun(g: Setup, s: State, evs: seq<Event>)
    decreases |evs|
  {
    evs == [] || (Enabled(g, s, evs[0]) && IsRun(g, Step(g, s, evs[0]), evs[1..]))
  }

  ghost function Run(g: Setup, s: State, evs: seq<Event>): State
    requires IsRun(g, s, evs)
    decreases |evs|
  {
    if evs == [] then s else Run(g, Step(g, s, evs[0]), evs[1..])
  }

  lemma RunAfter(g: Setup, s: State, ev: Event, evs: seq<Event>)
    requires Enabled(g, s, ev) && IsRun(g, Step(g, s, ev), evs)
    ensures IsRun(g, s, [ev] + evs) && Run(g, s, [ev] + evs) == Run(g, Step(g, s, ev), evs)
  {
    assert ([ev] + evs)[1..] == evs;
  }
}
