/** The engine seen from the log: every run of it is a run of the machine of log and replay pass, so that what is proved
    of passes interleaved with writers holds of the engine. */
module Projection {
  import opened Bags
  import opened Codecs
  import opened Messages
  import opened WalLog
  import opened Engine
  import A = AtLeastOnce
  import O = Ownership
  import P = Pools
  import R = ReplayRuns
  import WalRuns

  /** A write to the log, if there is one. */
  function Writes(spill: Option<Handle>): seq<R.Event> {
    if spill.Some? then [R.Writer(WalRuns.WriteEntry(EntryOf(spill.value.msg)))] else []
  }

  function SubmitResult(g: Setup, s: State, t: nat, r: nat, io: bool): P.Result<Handle>
    requires t < |s.threads| && s.threads[t].Running? && |s.pools| == |g.pools|
    requires var fan := FanOf(g, s.threads[t].h.msg); s.threads[t].k < |fan| && fan[s.threads[t].k] < |s.pools|
  {
    var m := CopyOf(s.threads[t].h.msg);
    var p := FanOf(g, s.threads[t].h.msg)[s.threads[t].k];
    P.Submitted(g.pools[p], s.pools[p], Handle(r, m), Logged(g, io, m))
  }

  function StrictOk(g: Setup, s: State, r: nat): bool
    requires s.call.Some? && |s.pools| == |g.pools|
    requires var fan := FanOf(g, s.call.value.h.msg); s.call.value.k < |fan| && fan[s.call.value.k] < |s.pools|
  {
    var m := s.call.value.h.msg;
    var p := FanOf(g, m)[s.call.value.k];
    P.SubmittedStrict(g.pools[p], s.pools[p], Handle(r, CopyOf(m))).ok
  }

  /** What the log and the pass see of a step: at most one step of theirs. A callback that succeeds is an accepted line
      when it returns; one that is refused anywhere, or has no pools, is a refused line at that moment. */
  ghost function Seen(g: Setup, s: State, ev: Event): seq<R.Event>
    requires Enabled(g, s, ev)
  {
    match ev
    case Start(_, _) => []
    case SubmitNext(t, r, io) => Writes(SubmitResult(g, s, t, r, io).spill)
    case Return(_) => []
    case Work(p, e) => Writes(P.Apply(g.pools[p], s.pools[p], e).spill)
    case WalFlush(k) => [R.Writer(WalRuns.FlushBuffer(k))]
    case WalClose => [R.Writer(WalRuns.CloseWriter)]
    case PassBegin(list) => [R.Begin(list)]
    case PassSkip => [R.Line(true)]
    case PassRefuse => [R.Line(false)]
    case PassCall(_) => if FanOf(g, FromEntry(CurrentLine(g, s).value)) == [] then [R.Line(false)] else []
    case StrictNext(r) => if StrictOk(g, s, r) then [] else [R.Line(false)]
    case CallReturn => [R.Line(true)]
    case PassFinish(removable) => [R.Finish(removable)]
    case Restarted => [R.Writer(WalRuns.Reopen)]
    case Crashed(k) => [R.Writer(WalRuns.CrashRestart(k))]
  }

  /** The log and the pass are those of the engine. */
  predicate Mirrors(s: State, v: R.State) {
    v.w == s.w && v.pass == s.pass
  }

  /** The step `es`, or none, leads from `v` to the log and pass of `s1`. */
  ghost predicate Follows(g: Setup, v: R.State, es: seq<R.Event>, s1: State) {
    || (es == [] && Mirrors(s1, v))
    || (|es| == 1 && R.Enabled(g.scan, v, es[0]) && Mirrors(s1, R.Step(g.codec, g.log, g.scan, v, es[0])))
  }

  lemma WriteFollows(g: Setup, s: State, v: R.State, p: nat, res: P.Result<Handle>)
    requires Mirrors(s, v) && p < |s.pools|
    ensures Follows(g, v, Writes(res.spill), Pooled(g, s, p, res)) && Pooled(g, s, p, res).call == s.call
    ensures Pooled(g, s, p, res).pass == s.pass
  {
  }

  lemma SubmitFollows(g: Setup, s: State, v: R.State, t: nat, r: nat, io: bool)
    requires Mirrors(s, v) && Enabled(g, s, SubmitNext(t, r, io))
    ensures var s1 := Submitting(g, s, t, r, io);
      Follows(g, v, Writes(SubmitResult(g, s, t, r, io).spill), s1) && s1.call == s.call && s1.pass == s.pass
  {
    var p := FanOf(g, s.threads[t].h.msg)[s.threads[t].k];
    var res := SubmitResult(g, s, t, r, io);
    WriteFollows(g, Acquired(s, r), v, p, res);
    var a := Pooled(g, Acquired(s, r), p, res);
    assert Answered(a, t, res.ok).w == a.w && Answered(a, t, res.ok).pass == a.pass;
  }

  lemma DispatchFollows(g: Setup, s: State, v: R.State, ev: Event)
    requires Mirrors(s, v) && Enabled(g, s, ev) && OfDispatch(ev)
    ensures Follows(g, v, Seen(g, s, ev), Step(g, s, ev))
    ensures Step(g, s, ev).call == s.call && Step(g, s, ev).pass == s.pass
  {
    match ev
    case Start(_, _) =>
    case SubmitNext(t, r, io) => SubmitFollows(g, s, v, t, r, io);
    case Return(_) =>
    case Work(p, e) => WriteFollows(g, s, v, p, P.Apply(g.pools[p], s.pools[p], e));
  }

  /** The callback is at a line that decodes, in the file as it is now. */
  ghost predicate OnLine(g: Setup, s: State) {
    && s.pass.Some? && s.pass.value.done < |s.pass.value.list| && s.pass.value.list[s.pass.value.done] in s.w.disk
    && s.pass.value.line < |R.Scanned(g.scan, s.w, s.pass.value).lines|
    && DecodeLine(g.codec, R.Scanned(g.scan, s.w, s.pass.value).lines[s.pass.value.line]).Some?
  }

  /** A line accepted, or refused, while the pass machine is at it. */
  lemma LineFollows(g: Setup, s: State, v: R.State, s1: State, accept: bool)
    requires Mirrors(s, v) && OnLine(g, s)
    requires s1.w == s.w && s1.pass == if accept then Some(R.Advanced(s.pass.value)) else None
    ensures Follows(g, v, [R.Line(accept)], s1)
  {
    assert R.Enabled(g.scan, v, R.Line(accept));
  }

  lemma CallbackFollows(g: Setup, s: State, v: R.State, ev: Event)
    requires Mirrors(s, v) && Enabled(g, s, ev) && OfCallback(ev) && (s.call.Some? ==> OnLine(g, s))
    ensures Follows(g, v, Seen(g, s, ev), Step(g, s, ev))
  {
    match ev
    case PassCall(r) =>
      if FanOf(g, FromEntry(CurrentLine(g, s).value)) == [] {
        LineFollows(g, s, v, Called(g, s, r), false);
      }
    case StrictNext(r) =>
      var s1 := StrictSubmitting(g, s, r);
      StrictKeeps(g, s, r);
      if !StrictOk(g, s, r) {
        LineFollows(g, s, v, s1, false);
      }
    case CallReturn => LineFollows(g, s, v, CallEnded(s), true);
  }

  lemma StrictKeeps(g: Setup, s: State, r: nat)
    requires Enabled(g, s, StrictNext(r))
    ensures var s1 := StrictSubmitting(g, s, r); var c := s.call.value;
      s1.w == s.w && (if StrictOk(g, s, r) then s1.pass == s.pass && s1.call == Some(Call(c.h, c.k + 1))
                      else s1.pass == None && s1.call == None)
  {
  }

  lemma PassFollows(g: Setup, s: State, v: R.State, ev: Event)
    requires Mirrors(s, v) && Enabled(g, s, ev) && OfPass(ev)
    ensures Follows(g, v, Seen(g, s, ev), Step(g, s, ev)) && Step(g, s, ev).call.None?
  {
    match ev
    case PassBegin(list) => assert R.Enabled(g.scan, v, R.Begin(list));
    case PassSkip => SkipFollows(g, s, v);
    case PassRefuse => LineFollows(g, s, v, s.(pass := None), false);
    case PassFinish(removable) => FinishFollows(g, s, v, removable);
  }

  lemma SkipFollows(g: Setup, s: State, v: R.State)
    requires Mirrors(s, v) && AtLine(g, s) && CurrentLine(g, s).None?
    ensures Follows(g, v, [R.Line(true)], s.(pass := Some(R.Advanced(s.pass.value))))
  {
    assert R.Enabled(g.scan, v, R.Line(true));
  }

  lemma FinishFollows(g: Setup, s: State, v: R.State, removable: bool)
    requires Mirrors(s, v) && AtEnd(g, s)
    ensures Follows(g, v, [R.Finish(removable)], SegmentEnded(g, s, removable))
  {
    assert R.Enabled(g.scan, v, R.Finish(removable));
  }

  lemma LogFollows(g: Setup, s: State, v: R.State, ev: Event)
    requires Mirrors(s, v) && Enabled(g, s, ev) && OfLog(ev)
    ensures Follows(g, v, Seen(g, s, ev), Step(g, s, ev))
    ensures Step(g, s, ev).call.Some? ==> Step(g, s, ev).call == s.call && Step(g, s, ev).pass == s.pass
  {
    assert R.Enabled(g.scan, v, Seen(g, s, ev)[0]);
  }

  // ---------- whole runs ----------

  /** Besides, the pass machine's invariant holds, and a callback under way is at the line the pass is at. */
  ghost predicate Sees(g: Setup, s: State, v: R.State) {
    Mirrors(s, v) && R.Inv(g.codec, g.scan, v) && A.CallInv(g, s.pass, s.call)
  }

  lemma AtCall(g: Setup, s: State, v: R.State)
    requires Sees(g, s, v) && s.call.Some?
    ensures OnLine(g, s)
  {
  }

  lemma CallStays(g: Setup, s: State, v: R.State, ev: Event)
    requires Sees(g, s, v) && Enabled(g, s, ev) && OfCallback(ev)
    ensures A.CallInv(g, Step(g, s, ev).pass, Step(g, s, ev).call)
  {
    if ev.StrictNext? {
      StrictKeeps(g, s, ev.r);
    }
  }

  lemma StepFollows(g: Setup, s: State, v: R.State, ev: Event)
    requires Sees(g, s, v) && Enabled(g, s, ev)
    ensures Follows(g, v, Seen(g, s, ev), Step(g, s, ev))
    ensures A.CallInv(g, Step(g, s, ev).pass, Step(g, s, ev).call)
  {
    if OfDispatch(ev) {
      DispatchFollows(g, s, v, ev);
    } else if OfCallback(ev) {
      if s.call.Some? {
        AtCall(g, s, v);
      }
      CallbackFollows(g, s, v, ev);
      CallStays(g, s, v, ev);
    } else if OfPass(ev) {
      PassFollows(g, s, v, ev);
    } else {
      LogFollows(g, s, v, ev);
    }
  }

  lemma RunAfter(c: Codec, cfg: WalLog.Config, scan: R.Splitter, v: R.State, ev: R.Event, evs: seq<R.Event>)
    requires R.Enabled(scan, v, ev) && R.IsRun(c, cfg, scan, R.Step(c, cfg, scan, v, ev), evs)
    ensures R.IsRun(c, cfg, scan, v, [ev] + evs)
    ensures R.Run(c, cfg, scan, v, [ev] + evs) == R.Run(c, cfg, scan, R.Step(c, cfg, scan, v, ev), evs)
  {
    assert ([ev] + evs)[1..] == evs;
  }

  lemma {:induction false} RunFollows(g: Setup, s: State, v: R.State, evs: seq<Event>) returns (es: seq<R.Event>)
    requires Proper(g) && Sees(g, s, v) && IsRun(g, s, evs)
    ensures R.IsRun(g.codec, g.log, g.scan, v, es)
    ensures Sees(g, Run(g, s, evs), R.Run(g.codec, g.log, g.scan, v, es))
    decreases |evs|
  {
    if evs == [] {
      es := [];
    } else {
      var one := Seen(g, s, evs[0]);
      StepFollows(g, s, v, evs[0]);
      if one == [] {
        es := RunFollows(g, Step(g, s, evs[0]), v, evs[1..]);
      } else {
        R.StepInv(g.codec, g.log, g.scan, v, one[0]);
        var rest := RunFollows(g, Step(g, s, evs[0]), R.Step(g.codec, g.log, g.scan, v, one[0]), evs[1..]);
        RunAfter(g.codec, g.log, g.scan, v, one[0], rest);
        es := [one[0]] + rest;
      }
    }
  }

  /** The log and pass of a gateway that starts on an empty directory. */
  ghost function Outset(): R.State {
    R.State.State(Restart(map[]), None, [])
  }

  lemma OutsetSees(g: Setup)
    requires Proper(g)
    ensures Sees(g, Init(g), Outset())
  {
    WalRuns.FreshInv(g.codec);
  }

  /** Every run of the engine is a run of log and pass: uploads, workers and callbacks are nothing to them but writes,
      lines accepted and lines refused. */
  lemma {:induction false} EngineIsPassRun(g: Setup, evs: seq<Event>) returns (es: seq<R.Event>)
    requires Proper(g) && IsRun(g, Init(g), evs)
    ensures R.IsRun(g.codec, g.log, g.scan, Outset(), es)
    ensures var v := R.Run(g.codec, g.log, g.scan, Outset(), es);
      v.w == Run(g, Init(g), evs).w && v.pass == Run(g, Init(g), evs).pass
  {
    OutsetSees(g);
    es := RunFollows(g, Init(g), Outset(), evs);
  }

  /** So in the engine, too: whatever uploads, workers, rotations and restarts happen meanwhile, of the files there were
      when a pass was listed only segments it has finished are gone, and the one it is at is sealed and unchanged. */
  lemma {:induction false} EnginePassesAreSafe(g: Setup, evs: seq<Event>)
    requires Proper(g) && IsRun(g, Init(g), evs)
    ensures var s := Run(g, Init(g), evs);
      s.pass.Some? ==>
        var p := s.pass.value;
        && p.done <= |p.list| && (forall n :: n in p.snap && n !in s.w.disk ==> n in p.list[..p.done])
        && (p.done < |p.list| ==>
              var n := p.list[p.done];
              n in s.w.disk && n in p.snap && n != s.w.name && s.w.disk[n] == p.snap[n])
  {
    OutsetSees(g);
    var es := EngineIsPassRun(g, evs);
    R.DeletionsArePrefix(g.codec, g.log, g.scan, Outset(), es);
    R.PassNeverTouchesActive(g.codec, g.log, g.scan, Outset(), es);
  }

  /** The process may die, and the buffer be flushed to any extent, in every state of every run. */
  lemma {:induction false} CrashAnytime(g: Setup, evs: seq<Event>, k: nat)
    requires Proper(g) && IsRun(g, Init(g), evs)
    ensures var s := Run(g, Init(g), evs);
      Enabled(g, s, Crashed(k)) && Enabled(g, s, WalFlush(k)) && Enabled(g, s, WalClose)
  {
    OutsetSees(g);
    var es := RunFollows(g, Init(g), Outset(), evs);
    O.RunPools(g, Init(g), evs);
  }
}
