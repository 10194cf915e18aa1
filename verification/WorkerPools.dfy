/** The worker pool as the object it is. Each method does in place what one step of the machine in `Pools` does to
    the value, and releases or hands on the message exactly once. */
module WorkerPools {
  import opened Codecs
  import opened Breakers
  import opened MessagePool
  import M = Messages
  import P = Pools
  import WalWriter

  /** The log is what it was, and one more entry for the message. */
  ghost predicate Appended(before: seq<(nat, Entry)>, wal: WalWriter.Writer, m: M.Message)
    reads wal
  {
    wal.Entries() == before + [(wal.activeName, Normal(wal.codec, M.EntryOf(m)))]
  }

  class WorkerPool {
    const cfg: P.Config
    const messages: Pool
    const wal: WalWriter.Writer?
    var ch: seq<Message>
    var closed: bool
    var cancelled: bool
    var circuitOpen: bool
    var failCount: nat
    var probing: bool
    var walFallbacks: nat

    /** The pool as a value, without its history. */
    ghost function State(): P.Pool<Message>
      reads this
    {
      P.Pool(ch, [], closed, cancelled, false, Breaker(circuitOpen, failCount, probing, []), [], [], [], [], [])
    }

    ghost predicate Valid()
      reads this, messages, messages.free, wal
    {
      messages.Valid() && (wal != null ==> wal.Valid() && Lawful(wal.codec))
    }

    /** A rejected message would reach the log. */
    predicate Writable(m: Message)
      reads wal, m, m.data
    {
      wal != null && Encodable(wal.codec, M.EntryOf(m.Value()))
    }

    constructor (channelSize: int, maxFails: int, mode: P.Mode, messages: Pool, wal: WalWriter.Writer?)
      ensures this.messages == messages && this.wal == wal && P.Proper(cfg) && cfg.mode == mode
      ensures cfg.capacity == (if channelSize > 0 then channelSize else 16384)
      ensures cfg.maxFails == (if maxFails > 0 then maxFails else 10)
      ensures State() == P.NewPool<Message>(0) && walFallbacks == 0
    {
      cfg := P.Config(if channelSize <= 0 then 16384 else channelSize, if maxFails <= 0 then 10 else maxFails, mode);
      this.messages, this.wal := messages, wal;
      ch, closed, cancelled, circuitOpen, failCount, probing, walFallbacks := [], false, false, false, 0, false, 0;
    }

    /** `handleRejected`: in fallback mode the message becomes the last entry of the log; in any case it is
        released. */
    method HandleRejected(m: Message) returns (written: bool)
      requires Valid() && m !in messages.free
      modifies this`walFallbacks, messages, m, wal
      ensures Valid() && m.Blank() && messages.free == old(messages.free) + {m}
      ensures written == (cfg.mode.FallbackMode? && old(Writable(m)))
      ensures written ==> wal != null && Appended(old(wal.Entries()), wal, old(m.Value()))
      ensures !written && wal != null ==> wal.Log() == old(wal.Log())
      ensures walFallbacks == old(walFallbacks) + if written then 1 else 0
    {
      written := false;
      if cfg.mode.FallbackMode? && wal != null {
        ghost var spilt;
        written, spilt := wal.Write(M.EntryOf(m.Value()));
        if written {
          walFallbacks := walFallbacks + 1;
        }
      }
      messages.Release(m);
    }

    method RecordFailure()
      modifies this`failCount, this`circuitOpen, this`probing
      ensures State().breaker == Breakers.RecordFailure(old(State().breaker), cfg.maxFails).(log := [])
      ensures failCount == old(failCount) + 1 && circuitOpen == (old(circuitOpen) || failCount >= cfg.maxFails)
      ensures probing == (old(probing) || (!old(circuitOpen) && circuitOpen))
    {
      failCount := failCount + 1;
      if failCount >= cfg.maxFails && !circuitOpen {
        circuitOpen := true;
        probing := true;
      }
    }

    method ResetFailures()
      modifies this`failCount, this`circuitOpen
      ensures State().breaker == Breakers.ResetFailures(old(State().breaker)).(log := [])
      ensures failCount == 0 && !circuitOpen
    {
      failCount := 0;
      if circuitOpen {
        circuitOpen := false;
      }
    }

    /** A tick of the recovery loop; a panicking health check ends the loop and leaves the circuit open. */
    method Probe(h: Health)
      modifies this`failCount, this`circuitOpen, this`probing
      ensures State().breaker == Tick(old(State().breaker), h).(log := [])
      ensures circuitOpen == (old(circuitOpen) && !h.Healthy?)
      ensures probing == (old(probing) && old(circuitOpen) && h.Unhealthy?)
      ensures failCount == if old(circuitOpen) && h.Healthy? then 0 else old(failCount)
    {
      if !circuitOpen {
        probing := false;
        return;
      }
      match h {
        case Unhealthy =>
        case Panics =>
          probing := false;
        case Healthy =>
          ResetFailures();
          probing := false;
      }
    }

    /** `Submit`: taken into the channel, or the log, or refused; kept or released, accordingly. */
    method Submit(m: Message) returns (ok: bool, written: bool)
      requires Valid() && m !in messages.free
      modifies this`ch, this`walFallbacks, messages, m, wal
      ensures Valid()
      ensures var r := P.Submitted(cfg, old(State()), m, old(Writable(m)));
        && ok == r.ok && ch == r.pool.queue && written == r.spill.Some?
        && messages.free == old(messages.free) + (if r.freed.Some? then {m} else {})
        && (r.freed.None? ==> m.Value() == old(m.Value()) && m.data == old(m.data))
      ensures ok <==> !closed && (|old(ch)| < cfg.capacity || cfg.mode.FallbackMode?)
      ensures ch == if !closed && |old(ch)| < cfg.capacity then old(ch) + [m] else old(ch)
      ensures written <==> !closed && |old(ch)| >= cfg.capacity && cfg.mode.FallbackMode? && old(Writable(m))
      ensures written ==> wal != null && Appended(old(wal.Entries()), wal, old(m.Value()))
      ensures !written && wal != null ==> wal.Log() == old(wal.Log())
    {
      written := false;
      if closed {
        messages.Release(m);
        return false, false;
      }
      if |ch| < cfg.capacity {
        ch := ch + [m];
        return true, false;
      }
      written := HandleRejected(m);
      ok := cfg.mode.FallbackMode?;
    }

    /** `SubmitStrict`: into the channel or refused; the log is not touched. */
    method SubmitStrict(m: Message) returns (ok: bool)
      requires messages.Valid() && m !in messages.free
      modifies this`ch, messages, m
      ensures messages.Valid()
      ensures var r := P.SubmittedStrict(cfg, old(State()), m);
        && ok == r.ok && ch == r.pool.queue
        && messages.free == old(messages.free) + (if ok then {} else {m})
      ensures ok <==> !closed && !circuitOpen && |old(ch)| < cfg.capacity
      ensures ok ==> ch == old(ch) + [m] && m.Value() == old(m.Value()) && m.data == old(m.data)
      ensures !ok ==> ch == old(ch)
    {
      if closed || circuitOpen || |ch| >= cfg.capacity {
        messages.Release(m);
        return false;
      }
      ch := ch + [m];
      ok := true;
    }

    /** `CanAcceptReplay`, in milliseconds over exact ratios. */
    method CanAcceptReplay() returns (ok: bool, delay: nat)
      requires P.Proper(cfg)
      ensures P.CanAcceptReplay(cfg, State()) == if ok then P.Admitted(delay) else P.Refused
      ensures ok <==> !closed && !circuitOpen && 5 * |ch| < 4 * cfg.capacity
      ensures ok ==> P.DelayFits(|ch|, cfg.capacity, delay) && delay < 300
    {
      if closed || circuitOpen || 10 * |ch| >= 8 * cfg.capacity {
        return false, 0;
      }
      ok, delay := true, 0;
      if 2 * |ch| >= cfg.capacity {
        var raw := (1000 * |ch| - 500 * cfg.capacity) / cfg.capacity;
        if raw < 10 {
          raw := 10;
        }
        delay := if raw > 300 then 300 else raw;
      }
      P.DelayRange(cfg, State());
      P.DelayExactly(cfg, State());
    }

    /** The three tries. `send(k)` is what the sink does on try `k`, `pick(k)` whether the wait before it notices a
        cancelled context. `last` is where the worker ends up. */
    method Try(m: Message, drain: bool, send: nat -> P.SendResult, pick: nat -> bool)
      returns (last: P.Worker<Message>, tries: nat)
      ensures 0 < tries <= 3 && (forall k :: 0 <= k < tries - 1 ==> send(k) == P.SendError)
      ensures last == P.LastWorker(m, drain, tries, send(tries - 1))
      ensures tries < 3 && send(tries - 1) == P.SendError ==> cancelled && pick(tries)
      ensures forall k :: 0 < k < tries ==> !(cancelled && pick(k))
    {
      tries := 0;
      while tries < 3
        invariant tries <= 3 && (forall k :: 0 <= k < tries ==> send(k) == P.SendError)
        invariant forall k :: 0 < k < tries ==> !(cancelled && pick(k))
      {
        if tries > 0 {
          if cancelled && pick(tries) {
            return P.Rejecting(m, drain), tries;
          }
        }
        var res := send(tries);
        tries := tries + 1;
        match res {
          case SendPanic => return P.Rejecting(m, drain), tries;
          case SendOk => return P.Sent(m, drain), tries;
          case SendError =>
        }
      }
      last := P.Exhausted(m, drain);
    }

    /** What follows the tries: the failure on record if all failed, the message delivered or rejected, and in
        any case released. */
    method Settle(m: Message, last: P.Worker<Message>) returns (written: bool)
      requires Valid() && m !in messages.free && (last.Sent? || last.Rejecting? || last.Exhausted?)
      modifies this`failCount, this`circuitOpen, this`probing, this`walFallbacks, messages, m, wal
      ensures Valid() && m.Blank() && messages.free == old(messages.free) + {m}
      ensures written == (!last.Sent? && cfg.mode.FallbackMode? && old(Writable(m)))
      ensures written ==> wal != null && Appended(old(wal.Entries()), wal, old(m.Value()))
      ensures !written && wal != null ==> wal.Log() == old(wal.Log())
      ensures State().breaker == P.BreakerAfter(cfg, old(State().breaker), last).(log := [])
    {
      if last.Sent? {
        ResetFailures();
        messages.Release(m);
        return false;
      }
      if last.Exhausted? {
        RecordFailure();
      }
      written := HandleRejected(m);
    }

    /** `processWithContext` under `safeProcess`. */
    method Process(m: Message, drain: bool, send: nat -> P.SendResult, pick: nat -> bool)
      returns (last: P.Worker<Message>, written: bool, tries: nat)
      requires Valid() && m !in messages.free
      modifies this`failCount, this`circuitOpen, this`probing, this`walFallbacks, messages, m, wal
      // released exactly once, whatever happens
      ensures Valid() && m.Blank() && messages.free == old(messages.free) + {m}
      // at most three tries, none with an open circuit, all but the last failed with an error
      ensures tries <= 3 && (old(circuitOpen) <==> tries == 0)
      ensures forall k :: 0 <= k < tries - 1 ==> send(k) == P.SendError
      ensures last == if tries == 0 then P.Rejecting(m, drain) else P.LastWorker(m, drain, tries, send(tries - 1))
      ensures 0 < tries < 3 && send(tries - 1) == P.SendError ==> cancelled && pick(tries)
      // delivered, or in the log if that is possible, never both
      ensures written == (!last.Sent? && cfg.mode.FallbackMode? && old(Writable(m)))
      ensures written ==> wal != null && Appended(old(wal.Entries()), wal, old(m.Value()))
      ensures !written && wal != null ==> wal.Log() == old(wal.Log())
      // a success resets the breaker, three errors in a row are one failure, anything else leaves it alone
      ensures State().breaker == P.BreakerAfter(cfg, old(State().breaker), last).(log := [])
    {
      last, tries := P.Rejecting(m, drain), 0;
      if !circuitOpen {
        last, tries := Try(m, drain, send, pick);
      }
      written := Settle(m, last);
    }

    /** The same, with the steps of the machine it amounts to. */
    method ProcessAsRun(m: Message, drain: bool, send: nat -> P.SendResult, pick: nat -> bool)
      returns (delivered: bool, written: bool, ghost evs: seq<P.Event<Message>>)
      requires Valid() && m !in messages.free
      modifies this`failCount, this`circuitOpen, this`probing, this`walFallbacks, messages, m, wal
      ensures var p := old(State()).(workers := [P.Got(m, drain)]);
        P.IsRun(cfg, p, evs) && Agree(P.Run(cfg, p, evs), State(), m, drain, delivered, written)
    {
      ghost var s := State();
      ghost var io := Writable(m);
      var last, tries;
      last, written, tries := Process(m, drain, send, pick);
      delivered := last.Sent?;
      ghost var res := if tries == 0 then P.SendError else send(tries - 1);
      evs := SettledRun(cfg, s, State(), m, drain, tries, res, io);
    }
  }

  /** A value of the machine and the object it stands for, after worker 0 has settled one message. */
  ghost predicate Agree(r: P.Pool<Message>, s: P.Pool<Message>, m: Message, drain: bool, delivered: bool,
                        written: bool) {
    && r.workers == [P.Idle(drain)] && r.queue == s.queue
    && r.breaker.open == s.breaker.open && r.breaker.fails == s.breaker.fails && r.breaker.probe == s.breaker.probe
    && r.delivered == (if delivered then [m] else [])
    && r.spilled == (if written then [m] else []) && r.lost == (if delivered || written then [] else [m])
  }

  /** Nothing on the books yet. */
  ghost predicate Unused(s: P.Pool<Message>) {
    s.workers == [] && s.delivered == [] && s.spilled == [] && s.lost == []
  }

  lemma ProcessedAgrees(cfg: P.Config, s: P.Pool<Message>, s1: P.Pool<Message>, m: Message, drain: bool,
                        tries: nat, res: P.SendResult, io: bool, last: P.Worker<Message>)
    requires Unused(s) && s1.queue == s.queue
    requires last == if tries == 0 then P.Rejecting(m, drain) else P.LastWorker(m, drain, tries, res)
    requires s1.breaker == P.BreakerAfter(cfg, s.breaker, last).(log := [])
    ensures Agree(P.Processed(cfg, s.(workers := [P.Got(m, drain)]), m, drain, tries, res, io), s1, m, drain,
                  last.Sent?, !last.Sent? && cfg.mode.FallbackMode? && io)
  {
  }

  lemma SettledRun(cfg: P.Config, s: P.Pool<Message>, s1: P.Pool<Message>, m: Message, drain: bool,
                   tries: nat, res: P.SendResult, io: bool) returns (evs: seq<P.Event<Message>>)
    requires Unused(s) && s1.queue == s.queue && tries <= 3 && (tries == 0 <==> s.breaker.open)
    requires 0 < tries < 3 && res.SendError? ==> s.cancelled
    requires var last := if tries == 0 then P.Rejecting(m, drain) else P.LastWorker(m, drain, tries, res);
      s1.breaker == P.BreakerAfter(cfg, s.breaker, last).(log := [])
    ensures var p := s.(workers := [P.Got(m, drain)]);
      var last := if tries == 0 then P.Rejecting(m, drain) else P.LastWorker(m, drain, tries, res);
      && P.IsRun(cfg, p, evs)
      && Agree(P.Run(cfg, p, evs), s1, m, drain, last.Sent?, !last.Sent? && cfg.mode.FallbackMode? && io)
  {
    var last := if tries == 0 then P.Rejecting(m, drain) else P.LastWorker(m, drain, tries, res);
    ProcessedAgrees(cfg, s, s1, m, drain, tries, res, io, last);
    evs := P.ProcessRun(cfg, s.(workers := [P.Got(m, drain)]), m, drain, tries, res, io);
  }
}
