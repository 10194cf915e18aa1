/** Progress of replay: what a sealed segment holds reaches every pool it is meant for, and the segment goes. */
module Replays {
  import opened Bags
  import opened Framing
  import opened Codecs
  import opened Messages
  import opened WalLog
  import R = ReplayRuns
  import opened Engine
  import P = Pools
  import Replay
  import Sh = Shutdowns

  function Contents(hs: seq<Handle>): (r: seq<Message>)
    ensures |r| == |hs|
  {
    seq(|hs|, i requires 0 <= i < |hs| => hs[i].msg)
  }

  /** The copies of `m` that pool `p` gets from position `k` of the fan-out on. */
  function DueFrom(g: Setup, m: Message, k: nat, p: nat): seq<Message>
    decreases |FanOf(g, m)| - k
  {
    if k >= |FanOf(g, m)| then []
    else (if FanOf(g, m)[k] == p then [CopyOf(m)] else []) + DueFrom(g, m, k + 1, p)
  }

  /** What pool `p` is to get of the entries. */
  function Due(g: Setup, es: seq<Entry>, p: nat): seq<Message> {
    if es == [] then [] else DueFrom(g, FromEntry(es[0]), 0, p) + Due(g, es[1..], p)
  }

  /** What pool `p` is still to get of a segment with lines `ls` when the pass is at `line`. */
  function Owed(g: Setup, ls: seq<Bytes>, line: nat, call: Option<Call>, p: nat): seq<Message>
    requires line <= |ls| && (call.Some? ==> line < |ls|)
  {
    if call.Some?
    then DueFrom(g, call.value.h.msg, call.value.k, p) + Due(g, Decode(g.codec, ls[line + 1..]), p)
    else Due(g, Decode(g.codec, ls[line..]), p)
  }

  /** Every entry still to come has pools. */
  ghost predicate Homed(g: Setup, ls: seq<Bytes>, line: nat) {
    forall i, e :: line <= i < |ls| && DecodeLine(g.codec, ls[i]) == Some(e) ==> FanOf(g, FromEntry(e)) != []
  }

  /** The pool has room for what it is owed, and is in order if it is owed anything. */
  ghost predicate Room(cfg: P.Config, pool: P.Pool<Handle>, owed: seq<Message>) {
    |pool.queue| + |owed| <= cfg.capacity && (owed != [] ==> !pool.closed && !pool.breaker.open)
  }

  /** A pass is in a segment it can read to its end; `ls` are its lines. */
  ghost predicate Within(g: Setup, s: State, ls: seq<Bytes>) {
    && Wired(g) && |s.pools| == |g.pools|
    && s.pass.Some? && s.pass.value.done < |s.pass.value.list|
    && s.pass.value.list[s.pass.value.done] in s.w.disk
    && R.Scanned(g.scan, s.w, s.pass.value) == Scan(ls, false)
    && s.pass.value.line <= |ls| && Homed(g, ls, s.pass.value.line)
    && (s.call.Some? ==>
          && s.pass.value.line < |ls| && s.call.value.k <= |FanOf(g, s.call.value.h.msg)|
          && DecodeLine(g.codec, ls[s.pass.value.line]).Some?
          && FromEntry(DecodeLine(g.codec, ls[s.pass.value.line]).value) == s.call.value.h.msg)
  }

  ghost predicate Roomy(g: Setup, s: State, ls: seq<Bytes>) {
    Within(g, s, ls)
    && forall p :: 0 <= p < |s.pools| ==> Room(g.pools[p], s.pools[p], Owed(g, ls, s.pass.value.line, s.call, p))
  }

  /** A pool before and after: it has room again for what it is still owed, and what it has and is owed is the same. */
  ghost predicate Carries(cfg: P.Config, a: P.Pool<Handle>, x: seq<Message>, b: P.Pool<Handle>, y: seq<Message>) {
    Room(cfg, b, y) && Contents(b.queue) + y == Contents(a.queue) + x
  }

  ghost predicate AllCarry(g: Setup, s: State, s1: State, ls: seq<Bytes>)
    requires Within(g, s, ls) && Within(g, s1, ls)
  {
    forall p :: 0 <= p < |s.pools| ==>
      Carries(g.pools[p], s.pools[p], Owed(g, ls, s.pass.value.line, s.call, p),
              s1.pools[p], Owed(g, ls, s1.pass.value.line, s1.call, p))
  }

  /** One step in the segment, closer to its end: nothing changes but the line, the callback, and what the pools have of
      what they are owed. */
  ghost predicate Onward(g: Setup, s: State, s1: State, ls: seq<Bytes>) {
    && Within(g, s, ls) && Within(g, s1, ls) && AllCarry(g, s, s1, ls)
    && s1.w == s.w && s1.pass.value == s.pass.value.(line := s1.pass.value.line)
    && Ahead(g, s1, ls) < Ahead(g, s, ls)
  }

  lemma OnwardRoomy(g: Setup, s: State, s1: State, ls: seq<Bytes>)
    requires Onward(g, s, s1, ls)
    ensures Roomy(g, s1, ls)
  {
  }

  /** Steps still to do in the segment, at most. */
  function Ahead(g: Setup, s: State, ls: seq<Bytes>): nat
    requires s.pass.Some? && s.pass.value.line <= |ls|
  {
    Steps(g, ls, s.pass.value.line, s.call)
  }

  function Steps(g: Setup, ls: seq<Bytes>, line: nat, call: Option<Call>): nat
    requires line <= |ls|
    decreases |ls| - line
  {
    if line == |ls| then 0
    else if call.Some? then
      var fan := |FanOf(g, call.value.h.msg)|;
      1 + (if call.value.k <= fan then fan - call.value.k else 0) + Steps(g, ls, line + 1, None)
    else
      var d := DecodeLine(g.codec, ls[line]);
      2 + (if d.Some? then |FanOf(g, FromEntry(d.value))| else 0) + Steps(g, ls, line + 1, None)
  }

  /** The first line of those still to come. */
  lemma NextLine(g: Setup, ls: seq<Bytes>, line: nat, p: nat)
    requires line < |ls|
    ensures var d := DecodeLine(g.codec, ls[line]); var rest := Due(g, Decode(g.codec, ls[line + 1..]), p);
      Due(g, Decode(g.codec, ls[line..]), p) == if d.None? then rest else DueFrom(g, FromEntry(d.value), 0, p) + rest
  {
    assert ls[line..][1..] == ls[line + 1..];
    var d := DecodeLine(g.codec, ls[line]);
    if d.Some? {
      var es := Decode(g.codec, ls[line + 1..]);
      assert Decode(g.codec, ls[line..]) == [d.value] + es;
      assert ([d.value] + es)[1..] == es;
    }
  }

  lemma SkipOnward(g: Setup, s: State, ls: seq<Bytes>)
    requires Roomy(g, s, ls) && s.call.None? && s.pass.value.line < |ls|
    requires DecodeLine(g.codec, ls[s.pass.value.line]).None?
    ensures Enabled(g, s, PassSkip) && Onward(g, s, s.(pass := Some(R.Advanced(s.pass.value))), ls)
  {
    var line := s.pass.value.line;
    forall p | 0 <= p < |s.pools|
      ensures Owed(g, ls, line + 1, None, p) == Owed(g, ls, line, None, p)
    {
      NextLine(g, ls, line, p);
    }
  }

  lemma CallOnward(g: Setup, s: State, ls: seq<Bytes>)
    requires Roomy(g, s, ls) && s.call.None? && s.pass.value.line < |ls|
    requires DecodeLine(g.codec, ls[s.pass.value.line]).Some?
    ensures Enabled(g, s, PassCall(s.next)) && Onward(g, s, Called(g, s, s.next), ls)
    ensures Called(g, s, s.next).call.Some? && Called(g, s, s.next).pass == s.pass
  {
    var line := s.pass.value.line;
    var m := FromEntry(DecodeLine(g.codec, ls[line]).value);
    var s1 := Called(g, s, s.next);
    assert s1.call == Some(Call(Handle(s.next, m), 0));
    forall p | 0 <= p < |s.pools|
      ensures Owed(g, ls, line, s1.call, p) == Owed(g, ls, line, None, p)
    {
      NextLine(g, ls, line, p);
    }
  }

  lemma DueEnds(g: Setup, m: Message, k: nat, p: nat, rest: seq<Message>)
    requires k == |FanOf(g, m)|
    ensures DueFrom(g, m, k, p) + rest == rest
  {
  }

  lemma ReturnOnward(g: Setup, s: State, ls: seq<Bytes>)
    requires Roomy(g, s, ls) && s.call.Some?
    requires s.call.value.k == |FanOf(g, s.call.value.h.msg)|
    ensures Enabled(g, s, CallReturn) && Onward(g, s, CallEnded(s), ls)
  {
    var line := s.pass.value.line;
    forall p | 0 <= p < |s.pools|
      ensures Owed(g, ls, line + 1, None, p) == Owed(g, ls, line, s.call, p)
    {
      DueEnds(g, s.call.value.h.msg, s.call.value.k, p, Due(g, Decode(g.codec, ls[line + 1..]), p));
    }
  }

  /** The pool in turn takes its copy; nobody else's dues change. */
  lemma DueNext(g: Setup, m: Message, k: nat, p: nat)
    requires k < |FanOf(g, m)|
    ensures FanOf(g, m)[k] == p ==> DueFrom(g, m, k, p) == [CopyOf(m)] + DueFrom(g, m, k + 1, p)
    ensures FanOf(g, m)[k] != p ==> DueFrom(g, m, k, p) == DueFrom(g, m, k + 1, p)
  {
  }

  lemma TakesDue(cfg: P.Config, pool: P.Pool<Handle>, h: Handle, rest: seq<Message>)
    requires Room(cfg, pool, [h.msg] + rest)
    ensures var r := P.SubmittedStrict(cfg, pool, h);
      r.ok && Room(cfg, r.pool, rest) && Contents(r.pool.queue) + rest == Contents(pool.queue) + ([h.msg] + rest)
  {
    assert Contents(pool.queue + [h]) == Contents(pool.queue) + [h.msg];
  }

  lemma TakesFirst(cfg: P.Config, pool: P.Pool<Handle>, h: Handle, more: seq<Message>, tail: seq<Message>)
    requires Room(cfg, pool, ([h.msg] + more) + tail)
    ensures var r := P.SubmittedStrict(cfg, pool, h);
      r.ok && Carries(cfg, pool, ([h.msg] + more) + tail, r.pool, more + tail)
  {
    assert ([h.msg] + more) + tail == [h.msg] + (more + tail);
    TakesDue(cfg, pool, h, more + tail);
  }

  lemma StrictCarries(g: Setup, ls: seq<Bytes>, line: nat, c: Call, p: nat, pool: P.Pool<Handle>, h: Handle)
    requires line < |ls| && p < |g.pools| && c.k < |FanOf(g, c.h.msg)| && h.msg == CopyOf(c.h.msg)
    requires Room(g.pools[p], pool, Owed(g, ls, line, Some(c), p))
    ensures var owed := Owed(g, ls, line, Some(c), p); var next := Owed(g, ls, line, Some(Call(c.h, c.k + 1)), p);
      && (FanOf(g, c.h.msg)[c.k] == p ==>
            P.SubmittedStrict(g.pools[p], pool, h).ok
            && Carries(g.pools[p], pool, owed, P.SubmittedStrict(g.pools[p], pool, h).pool, next))
      && (FanOf(g, c.h.msg)[c.k] != p ==> Carries(g.pools[p], pool, owed, pool, next))
  {
    var tail := Due(g, Decode(g.codec, ls[line + 1..]), p);
    var more := DueFrom(g, c.h.msg, c.k + 1, p);
    DueNext(g, c.h.msg, c.k, p);
    if FanOf(g, c.h.msg)[c.k] == p {
      TakesFirst(g.pools[p], pool, h, more, tail);
    }
  }

  lemma StrictOnward(g: Setup, s: State, ls: seq<Bytes>)
    requires Roomy(g, s, ls) && s.call.Some? && s.call.value.k < |FanOf(g, s.call.value.h.msg)|
    ensures Enabled(g, s, StrictNext(s.next)) && Onward(g, s, StrictSubmitting(g, s, s.next), ls)
    ensures var r := StrictSubmitting(g, s, s.next); var c := s.call.value;
      r.call == Some(Call(c.h, c.k + 1)) && r.pass == s.pass
  {
    var c := s.call.value;
    var line := s.pass.value.line;
    var h := Handle(s.next, CopyOf(c.h.msg));
    var i := FanOf(g, c.h.msg)[c.k];
    StrictCarries(g, ls, line, c, i, s.pools[i], h);
    Sh.StrictParts(g, s, s.next, i, P.SubmittedStrict(g.pools[i], s.pools[i], h));
    forall p | 0 <= p < |s.pools| && p != i
      ensures Carries(g.pools[p], s.pools[p], Owed(g, ls, line, Some(c), p),
                      s.pools[p], Owed(g, ls, line, Some(Call(c.h, c.k + 1)), p))
    {
      StrictCarries(g, ls, line, c, p, s.pools[p], h);
    }
  }

  /** A step that brings the segment closer to its end. */
  lemma NextOnward(g: Setup, s: State, ls: seq<Bytes>) returns (ev: Event)
    requires Roomy(g, s, ls) && (s.call.Some? || s.pass.value.line < |ls|)
    ensures Enabled(g, s, ev) && Onward(g, s, Step(g, s, ev), ls)
  {
    if s.call.None? {
      if DecodeLine(g.codec, ls[s.pass.value.line]).None? {
        ev := PassSkip;
        SkipOnward(g, s, ls);
      } else {
        ev := PassCall(s.next);
        CallOnward(g, s, ls);
      }
    } else if s.call.value.k < |FanOf(g, s.call.value.h.msg)| {
      ev := StrictNext(s.next);
      StrictOnward(g, s, ls);
    } else {
      ev := CallReturn;
      ReturnOnward(g, s, ls);
    }
  }

  /** From `s` to `r` the segment the pass was at has been removed, and every pool has got exactly what it was owed,
      in order. */
  ghost predicate Gone(g: Setup, s: State, r: State, ls: seq<Bytes>)
    requires Within(g, s, ls)
  {
    var pass := s.pass.value;
    && r.w == Remove(s.w, pass.list[pass.done]) && r.pass == Some(R.Finished(pass, true)) && r.call.None?
    && |r.pools| == |s.pools|
    && forall p :: 0 <= p < |s.pools| ==>
         Contents(r.pools[p].queue) == Contents(s.pools[p].queue) + Owed(g, ls, pass.line, s.call, p)
  }

  lemma LastStep(g: Setup, s: State, ls: seq<Bytes>)
    requires Roomy(g, s, ls) && s.call.None? && s.pass.value.line == |ls|
    ensures Enabled(g, s, PassFinish(true)) && Gone(g, s, SegmentEnded(g, s, true), ls)
  {
    assert ls[|ls|..] == [];
    forall p | 0 <= p < |s.pools| ensures Owed(g, ls, |ls|, None, p) == [] {
    }
  }

  lemma GoneBefore(g: Setup, s: State, s1: State, r: State, ls: seq<Bytes>)
    requires Onward(g, s, s1, ls) && Gone(g, s1, r, ls)
    ensures Gone(g, s, r, ls)
  {
    forall p | 0 <= p < |s.pools|
      ensures Contents(r.pools[p].queue) == Contents(s.pools[p].queue) + Owed(g, ls, s.pass.value.line, s.call, p)
    {
      assert Carries(g.pools[p], s.pools[p], Owed(g, ls, s.pass.value.line, s.call, p),
                     s1.pools[p], Owed(g, ls, s1.pass.value.line, s1.call, p));
    }
  }

  lemma {:induction false} SegmentRun(g: Setup, s: State, ls: seq<Bytes>) returns (evs: seq<Event>)
    requires Roomy(g, s, ls)
    ensures IsRun(g, s, evs) && Gone(g, s, Run(g, s, evs), ls)
    decreases Ahead(g, s, ls)
  {
    if s.call.None? && s.pass.value.line == |ls| {
      LastStep(g, s, ls);
      RunAfter(g, s, PassFinish(true), []);
      evs := [PassFinish(true)] + [];
    } else {
      var ev := NextOnward(g, s, ls);
      OnwardRoomy(g, s, Step(g, s, ev), ls);
      var rest := SegmentRun(g, Step(g, s, ev), ls);
      RunAfter(g, s, ev, rest);
      GoneBefore(g, s, Step(g, s, ev), Run(g, Step(g, s, ev), rest), ls);
      evs := [ev] + rest;
    }
  }

  // ---------- from the listing on ----------

  lemma {:induction false} DecodedLine(c: Codec, ls: seq<Bytes>, i: nat)
    requires i < |ls| && DecodeLine(c, ls[i]).Some?
    ensures DecodeLine(c, ls[i]).value in Decode(c, ls)
    decreases |ls|
  {
    if i != 0 {
      DecodedLine(c, ls[1..], i - 1);
    }
  }

  /** Each pool of a message gets its copy. */
  lemma {:induction false} DueFromHas(g: Setup, m: Message, k: nat, i: nat)
    requires k <= i < |FanOf(g, m)|
    ensures CopyOf(m) in DueFrom(g, m, k, FanOf(g, m)[i])
    decreases i - k
  {
    if k != i {
      DueFromHas(g, m, k + 1, i);
    }
  }

  lemma {:induction false} DueHas(g: Setup, es: seq<Entry>, e: Entry, p: nat)
    requires e in es && p in FanOf(g, FromEntry(e))
    ensures CopyOf(FromEntry(e)) in Due(g, es, p)
  {
    if e == es[0] {
      var i :| 0 <= i < |FanOf(g, FromEntry(e))| && FanOf(g, FromEntry(e))[i] == p;
      DueFromHas(g, FromEntry(e), 0, i);
    } else {
      DueHas(g, es[1..], e, p);
    }
  }

  /** The entries of segment `n` have pools, with room for them, and the scanner gets to its end. */
  ghost predicate Deliverable(g: Setup, s: State, n: nat) {
    && n in s.w.disk && !g.scan(s.w.disk[n]).tooLong && |s.pools| == |g.pools|
    && (forall e :: e in Entries(g.codec, s.w.disk[n]) ==> FanOf(g, FromEntry(e)) != [])
    && (forall p :: 0 <= p < |s.pools| ==> Room(g.pools[p], s.pools[p], Due(g, Entries(g.codec, s.w.disk[n]), p)))
  }

  lemma Listing(g: Setup, s: State, list: seq<nat>)
    requires Proper(g) && list != [] && Deliverable(g, s, list[0]) && s.call.None?
    ensures var b := s.w.disk[list[0]]; var s1 := s.(pass := Some(R.Begun(s.w, list)));
      Roomy(g, s1, Lines(b)) && forall p :: Owed(g, Lines(b), 0, None, p) == Due(g, Entries(g.codec, b), p)
  {
    var b := s.w.disk[list[0]];
    var ls := Lines(b);
    assert ls[0..] == ls;
    forall i | 0 <= i < |ls| && DecodeLine(g.codec, ls[i]).Some?
      ensures FanOf(g, FromEntry(DecodeLine(g.codec, ls[i]).value)) != []
    {
      DecodedLine(g.codec, ls, i);
    }
  }

  /** Replay makes progress: when no pass is under way and the first sealed segment holds entries whose pools have room
      for them, there is a run after which each pool has, behind what it had, exactly its copies of these entries in
      order, every pool of an entry's project among them, and of the files exactly that segment is gone. */
  lemma {:induction false} SealedSegmentGoes(g: Setup, s: State, list: seq<nat>) returns (evs: seq<Event>)
    requires Proper(g) && s.call.None? && R.Over(s.pass)
    requires list != [] && Replay.Lists(list, s.w.disk.Keys - {s.w.name}) && Deliverable(g, s, list[0])
    ensures IsRun(g, s, evs)
    ensures var r := Run(g, s, evs); var es := Entries(g.codec, s.w.disk[list[0]]);
      && r.w == Remove(s.w, list[0]) && r.call.None? && |r.pools| == |s.pools|
      && (forall p :: 0 <= p < |s.pools| ==>
            Contents(r.pools[p].queue) == Contents(s.pools[p].queue) + Due(g, es, p))
      && (forall e, p :: e in es && p in FanOf(g, FromEntry(e)) && p < |s.pools| ==>
            CopyOf(FromEntry(e)) in Contents(r.pools[p].queue))
  {
    var ls := Lines(s.w.disk[list[0]]);
    Listing(g, s, list);
    var rest := SegmentRun(g, Step(g, s, PassBegin(list)), ls);
    RunAfter(g, s, PassBegin(list), rest);
    evs := [PassBegin(list)] + rest;
    var es := Entries(g.codec, s.w.disk[list[0]]);
    forall e, p | e in es && p in FanOf(g, FromEntry(e)) && p < |s.pools|
      ensures CopyOf(FromEntry(e)) in Contents(Run(g, s, evs).pools[p].queue)
    {
      DueHas(g, es, e, p);
    }
  }
}
