/** The circuit breaker of a worker pool and its recovery probe. */
module Breakers {

  /** What a health check does. */
  datatype Health = Healthy | Unhealthy | Panics

  datatype Note = Failure | Reset | Panic

  /** `probe` is a live recovery loop. Its exit and the re-arming of `recoveryOnce` are one step, so the
      Once is spent exactly while a probe lives. `log` is history: recorded failures, resets, probes lost to a
      panicking health check. */
  datatype Breaker = Breaker(open: bool, fails: nat, probe: bool, log: seq<Note>)

  const CLOSED := Breaker(false, 0, false, [])

  function RecordFailure(b: Breaker, maxFails: nat): Breaker {
    var fails := b.fails + 1;
    if fails >= maxFails && !b.open
    then Breaker(true, fails, true, b.log + [Failure])
    else Breaker(b.open, fails, b.probe, b.log + [Failure])
  }

  function ResetFailures(b: Breaker): Breaker {
    Breaker(false, 0, b.probe, b.log + [Reset])
  }

  /** A tick of the probe: it leaves if the circuit is closed, stays if the sink is unhealthy, leaves an open
      circuit behind if the check panics, and otherwise closes the circuit and leaves. */
  function Tick(b: Breaker, h: Health): Breaker {
    if !b.open then b.(probe := false)
    else
      match h
      case Healthy => ResetFailures(b).(probe := false)
      case Unhealthy => b
      case Panics => b.(probe := false, log := b.log + [Panic])
  }

  /** Failures recorded since the last reset. */
  function Trailing(log: seq<Note>): nat {
    if log == [] || log[|log| - 1].Reset? then 0
    else Trailing(log[..|log| - 1]) + if log[|log| - 1].Failure? then 1 else 0
  }

  /** A probe was lost to a panic since the last reset. */
  predicate Panicked(log: seq<Note>) {
    log != [] && !log[|log| - 1].Reset? && (log[|log| - 1].Panic? || Panicked(log[..|log| - 1]))
  }

  /** Open exactly at `maxFails` failures since the last reset. */
  ghost predicate Counted(b: Breaker, maxFails: nat) {
    b.fails == Trailing(b.log) && (b.open <==> b.fails >= maxFails)
  }

  /** An open circuit has a live probe, unless that probe was lost to a panic. */
  predicate Guarded(b: Breaker) {
    (b.open ==> (b.probe <==> !Panicked(b.log))) && (Panicked(b.log) ==> b.open)
  }

  ghost predicate Sound(b: Breaker, maxFails: nat) {
    Counted(b, maxFails) && Guarded(b)
  }

  lemma FailureSound(b: Breaker, maxFails: nat)
    requires Counted(b, maxFails)
    ensures Counted(RecordFailure(b, maxFails), maxFails)
    ensures Guarded(b) ==> Guarded(RecordFailure(b, maxFails))
  {
    assert (b.log + [Failure])[..|b.log|] == b.log;
  }

  lemma ResetSound(b: Breaker, maxFails: nat)
    requires Counted(b, maxFails) && maxFails > 0
    ensures Sound(ResetFailures(b), maxFails)
  {
  }

  lemma TickSound(b: Breaker, maxFails: nat, h: Health)
    requires Counted(b, maxFails) && maxFails > 0
    ensures Counted(Tick(b, h), maxFails)
    ensures Guarded(b) ==> Guarded(Tick(b, h))
  {
    assert (b.log + [Panic])[..|b.log|] == b.log;
  }

  /** `n` failures in a row. */
  function Failing(b: Breaker, maxFails: nat, n: nat): Breaker {
    if n == 0 then b else RecordFailure(Failing(b, maxFails, n - 1), maxFails)
  }

  function Failures(n: nat): seq<Note> {
    seq(n, _ => Failure)
  }

  /** They open the circuit exactly at the last one, with a live probe. */
  lemma {:induction false} FailingCount(b: Breaker, maxFails: nat, n: nat)
    requires !b.open && b.fails == 0 && 0 < maxFails && n <= maxFails
    ensures var r := Failing(b, maxFails, n);
      r.open == (n == maxFails) && (r.open ==> r.probe) && r.fails == n && r.log == b.log + Failures(n)
  {
    if n != 0 {
      FailingCount(b, maxFails, n - 1);
      assert Failures(n) == Failures(n - 1) + [Failure];
    } else {
      assert b.log + Failures(0) == b.log;
    }
  }

  // ---------- the probe's exit as two steps ----------

  /** The breaker with the exit taken apart: between the decision to leave and the re-arming, `exiting`
      holds and `recoveryOnce` is still spent. */
  datatype Split = Split(open: bool, fails: nat, probe: bool, exiting: bool)

  datatype SplitEvent = Fail | Succeed | Decide(h: Health) | Rearm

  function SplitStep(b: Split, maxFails: nat, ev: SplitEvent): Split {
    match ev
    case Fail =>
      var fails := b.fails + 1;
      if fails >= maxFails && !b.open
      then Split(true, fails, b.probe || !b.exiting, b.exiting)
      else b.(fails := fails)
    case Succeed => b.(open := false, fails := 0)
    case Decide(h) =>
      if !b.probe || (b.open && h.Unhealthy?) then b
      else if !b.open || h.Panics? then b.(probe := false, exiting := true)
      else Split(false, 0, false, true)
    case Rearm => b.(exiting := false)
  }

  function SplitRun(b: Split, maxFails: nat, evs: seq<SplitEvent>): Split
    decreases |evs|
  {
    if evs == [] then b else SplitRun(SplitStep(b, maxFails, evs[0]), maxFails, evs[1..])
  }

  /** Stranded: open, no probe, none on its way. */
  predicate Stranded(b: Split) {
    b.open && !b.probe && !b.exiting
  }

  /** A circuit that opens again before the leaving probe has re-armed the Once is stranded, and so is one whose
      probe panics. */
  lemma SplitExitStrands()
    ensures Stranded(SplitRun(Split(false, 0, false, false), 1, [Fail, Decide(Healthy), Fail, Rearm]))
    ensures Stranded(SplitRun(Split(false, 0, false, false), 1, [Fail, Decide(Panics), Rearm]))
  {
  }

  /** It stays that way through any number of further failures: only a success already under way helps. */
  lemma {:induction false} StrandedForever(b: Split, maxFails: nat, evs: seq<SplitEvent>)
    requires Stranded(b) && forall i :: 0 <= i < |evs| ==> !evs[i].Succeed?
    ensures Stranded(SplitRun(b, maxFails, evs))
    decreases |evs|
  {
    if evs != [] {
      StrandedForever(SplitStep(b, maxFails, evs[0]), maxFails, evs[1..]);
    }
  }

  /** Exactly the re-arming with an open circuit strands: no other step of the split breaker does. */
  lemma StrandedExactly(b: Split, maxFails: nat, ev: SplitEvent)
    requires !Stranded(b) && (b.probe ==> !b.exiting)
    ensures var r := SplitStep(b, maxFails, ev);
      && (r.probe ==> !r.exiting)
      && (Stranded(r) <==> ev.Rearm? && b.exiting && b.open)
  {
  }
}
