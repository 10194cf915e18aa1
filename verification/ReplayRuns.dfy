/** Replay interleaved with writers: a pass takes its listing in one step and then reads and deletes
    segment by segment while writes, flushes, rotations and closes happen in between. */
module ReplayRuns {
  import opened Bags
  import opened Framing
  import opened Codecs
  import opened WalLog
  import opened Replay
  import WalRuns

  /** A running pass: the sealed segments listed at its start, how many are finished, how many lines of
      the current one are done. The last three fields are history: the active number and the files as they were at
      the listing, and the deletions of this pass. */
  datatype Pass = Pass(list: seq<nat>, done: nat, line: nat, active: nat, snap: map<nat, Bytes>, removed: seq<nat>)

  /** A pass begun on log `w`. */
  function Begun(w: Wal, list: seq<nat>): Pass {
    Pass(list, 0, 0, w.name, w.disk, [])
  }

  /** `calls` are the entries the callback accepted in this pass, each with its segment. */
  datatype State = State(w: Wal, pass: Option<Pass>, calls: seq<(nat, Entry)>)

  datatype Event =
    | Writer(ev: WalRuns.Event)
    | Begin(list: seq<nat>)
    | Line(accept: bool)
    | Finish(removable: bool)

  /** A line scanner; `Scanner(cap)` is the one with buffer limit `cap`. */
  type Splitter = Bytes -> Scan

  function Scanner(cap: nat): Splitter {
    b => ScanFile(b, cap)
  }

  /** A scanner delivers lines of the file in order, and one that does not give up delivers them all. */
  ghost predicate Complete(scan: Splitter) {
    forall b :: scan(b).lines <= Lines(b) && (!scan(b).tooLong ==> scan(b).lines == Lines(b))
  }

  lemma ScannerComplete(cap: nat)
    ensures Complete(Scanner(cap))
  {
  }

  /** The lines the scanner delivers from the file as it is on disk now. */
  function Scanned(scan: Splitter, w: Wal, p: Pass): Scan
    requires p.done < |p.list| && p.list[p.done] in w.disk
  {
    scan(w.disk[p.list[p.done]])
  }

  /** No pass is under way: none was begun, the last one was given up, or it is through its list. */
  predicate Over(p: Option<Pass>) {
    p.Some? ==> p.value.done == |p.value.list|
  }

  /** The active name and the directory listing are read in one step. */
  ghost predicate Enabled(scan: Splitter, s: State, ev: Event) {
    match ev
    case Writer(e) => !e.Delete? && WalRuns.Enabled(s.w, e)
    case Begin(list) => Over(s.pass) && Lists(list, s.w.disk.Keys - {s.w.name})
    case Line(_) =>
      && s.pass.Some? && s.pass.value.done < |s.pass.value.list|
      && s.pass.value.list[s.pass.value.done] in s.w.disk
      && s.pass.value.line < |Scanned(scan, s.w, s.pass.value).lines|
    case Finish(_) =>
      && s.pass.Some? && s.pass.value.done < |s.pass.value.list|
      && s.pass.value.list[s.pass.value.done] in s.w.disk
      && s.pass.value.line == |Scanned(scan, s.w, s.pass.value).lines|
  }

  /** One pass at a time: the next begins when there is none, or when the last is through its list; it then starts at
      the first line of the first segment. */
  lemma OnePassAtATime(c: Codec, cfg: Config, scan: Splitter, s: State, list: seq<nat>)
    requires Enabled(scan, s, Begin(list))
    ensures s.pass.Some? ==> s.pass.value.done == |s.pass.value.list|
    ensures Step(c, cfg, scan, s, Begin(list)).pass == Some(Pass(list, 0, 0, s.w.name, s.w.disk, []))
  {
  }

  ghost function Step(c: Codec, cfg: Config, scan: Splitter, s: State, ev: Event): State
    requires Enabled(scan, s, ev)
  {
    match ev
    case Writer(e) =>
      var w := WalRuns.Step(c, cfg, s.w, e);
      if e.Reopen? || e.CrashRestart? then State(w, None, []) else s.(w := w)
    case Begin(list) =>
      State(s.w, Some(Begun(s.w, list)), [])
    case Line(accept) => LineStep(c, scan, s, accept)
    case Finish(removable) => FinishStep(scan, s, removable)
  }

  /** One line: empty and corrupt lines are skipped; a refused entry ends the pass. */
  ghost function LineStep(c: Codec, scan: Splitter, s: State, accept: bool): State
    requires Enabled(scan, s, Line(accept))
  {
    var p := s.pass.value;
    match DecodeLine(c, Scanned(scan, s.w, p).lines[p.line])
    case None => State(s.w, Some(Advanced(p)), s.calls)
    case Some(e) =>
      if accept
      then State(s.w, Some(Advanced(p)), s.calls + [(p.list[p.done], e)])
      else State(s.w, None, [])
  }

  function Advanced(p: Pass): Pass {
    p.(line := p.line + 1)
  }

  function Finished(p: Pass, removable: bool): Pass
    requires p.done < |p.list|
  {
    Pass(p.list, p.done + 1, 0, p.active, p.snap, if removable then p.removed + [p.list[p.done]] else p.removed)
  }

  /** The end of a segment: a scan error ends the pass; otherwise the file is removed, or stays if that fails. */
  ghost function FinishStep(scan: Splitter, s: State, removable: bool): State
    requires Enabled(scan, s, Finish(removable))
  {
    var p := s.pass.value;
    if Scanned(scan, s.w, p).tooLong then State(s.w, None, [])
    else State(if removable then Remove(s.w, p.list[p.done]) else s.w, Some(Finished(p, removable)), s.calls)
  }

  // ---------- what every pass keeps ----------

  /** The entries of the first `k` listed segments. */
  function Flat(read: Contents, p: Pass, k: nat): seq<(nat, Entry)>
    requires k <= |p.list|
  {
    Listed(read, p.snap, p.list, k)
  }

  /** The listed segments are sealed; those still to come are on disk, unchanged since the listing;
      those behind were read to their end. */
  ghost predicate PassInv(scan: Splitter, w: Wal, p: Pass) {
    && p.done <= |p.list| && StrictlyAscending(p.list)
    && (forall i :: 0 <= i < |p.list| ==> p.list[i] < w.name && p.list[i] in p.snap)
    && (forall i :: p.done <= i < |p.list| ==> p.list[i] in w.disk && w.disk[p.list[i]] == p.snap[p.list[i]])
    && (forall i :: 0 <= i < p.done ==> !scan(p.snap[p.list[i]]).tooLong)
    && (p.done == |p.list| ==> p.line == 0)
    && (p.done < |p.list| ==> p.line <= |scan(p.snap[p.list[p.done]]).lines|)
    && |p.removed| <= p.done && (|p.removed| == p.done ==> p.removed == p.list[..p.done])
  }

  /** Of the files there were at the listing, exactly those the pass has removed are gone. */
  ghost predicate Cleared(w: Wal, p: Pass) {
    && (forall n :: n in p.snap ==> (n in p.removed <==> n !in w.disk))
    && (forall n :: n in p.removed ==> n in p.list)
  }

  /** The accepted entries of the current segment. */
  function Partial(c: Codec, scan: Splitter, p: Pass): seq<Entry> {
    if p.done < |p.list| && p.list[p.done] in p.snap && p.line <= |scan(p.snap[p.list[p.done]]).lines|
    then Decode(c, scan(p.snap[p.list[p.done]]).lines[..p.line])
    else []
  }

  /** The callback accepted, in order, exactly the decodable entries of the finished segments and of the
      lines already read of the current one. */
  ghost predicate CallsInv(c: Codec, scan: Splitter, s: State) {
    s.pass.Some? ==>
      && PassInv(scan, s.w, s.pass.value) && Cleared(s.w, s.pass.value)
      && Sealing(s.pass.value.list, s.pass.value.snap, s.pass.value.active)
      && Accepted(Reader(c), s.pass.value, Partial(c, scan, s.pass.value), s.calls)
  }

  ghost predicate Accepted(read: Contents, p: Pass, partial: seq<Entry>, calls: seq<(nat, Entry)>) {
    && p.done <= |p.list|
    && calls == Flat(read, p, p.done) + (if p.done < |p.list| then Tag(p.list[p.done], partial) else [])
  }

  ghost predicate Inv(c: Codec, scan: Splitter, s: State) {
    WalLog.Inv(c, s.w) && CallsInv(c, scan, s)
  }

  /** Writers do not disturb a pass. */
  lemma WriterKeepsPass(c: Codec, cfg: Config, scan: Splitter, w: Wal, p: Pass, ev: WalRuns.Event)
    requires Shape(w) && PassInv(scan, w, p) && WalRuns.Enabled(w, ev) && !ev.Delete?
    ensures PassInv(scan, WalRuns.Step(c, cfg, w, ev), p)
  {
    var r := WalRuns.Step(c, cfg, w, ev);
    forall i | 0 <= i < |p.list|
      ensures p.list[i] < r.name
      ensures p.done <= i ==> p.list[i] in r.disk && r.disk[p.list[i]] == p.snap[p.list[i]]
    {
      WalRuns.StepSealed(c, cfg, w, ev, p.list[i]);
    }
  }

  /** Nor do they remove a file, or bring one back. */
  lemma WriterKeepsCleared(c: Codec, cfg: Config, scan: Splitter, w: Wal, p: Pass, ev: WalRuns.Event)
    requires Shape(w) && PassInv(scan, w, p) && Cleared(w, p) && WalRuns.Enabled(w, ev) && !ev.Delete?
    ensures Cleared(WalRuns.Step(c, cfg, w, ev), p)
  {
    var r := WalRuns.Step(c, cfg, w, ev);
    NumbersSurvive(c, cfg, w, ev);
    forall n | n in p.snap ensures n in p.removed <==> n !in r.disk {
      if n in p.removed {
        assert n in p.list && n !in w.disk;
        WalRuns.StepSealed(c, cfg, w, ev, n);
      }
    }
  }

  lemma BeginPass(c: Codec, scan: Splitter, w: Wal, list: seq<nat>)
    requires Shape(w) && Lists(list, w.disk.Keys - {w.name})
    ensures PassInv(scan, w, Begun(w, list)) && Cleared(w, Begun(w, list)) && Sealing(list, w.disk, w.name)
  {
  }

  lemma FinishKeepsPass(scan: Splitter, w: Wal, p: Pass, removable: bool)
    requires PassInv(scan, w, p) && p.done < |p.list| && !Scanned(scan, w, p).tooLong
    ensures p.list[p.done] != w.name
    ensures PassInv(scan, if removable then Remove(w, p.list[p.done]) else w, Finished(p, removable))
  {
  }

  lemma FinishKeepsCleared(w: Wal, p: Pass, removable: bool)
    requires Cleared(w, p) && p.done < |p.list|
    ensures Cleared(if removable then Remove(w, p.list[p.done]) else w, Finished(p, removable))
  {
  }

  lemma FlatFrame(read: Contents, p: Pass, q: Pass, k: nat)
    requires k <= |p.list| && p.list == q.list && p.snap == q.snap
    ensures Flat(read, p, k) == Flat(read, q, k)
  {
  }

  /** One more line of the current segment. */
  lemma PartialGrows(c: Codec, scan: Splitter, p: Pass)
    requires p.done < |p.list| && p.list[p.done] in p.snap
    requires p.line < |scan(p.snap[p.list[p.done]]).lines|
    ensures Partial(c, scan, Advanced(p))
         == Partial(c, scan, p)
            + match DecodeLine(c, scan(p.snap[p.list[p.done]]).lines[p.line]) case None => [] case Some(e) => [e]
  {
    var ls := scan(p.snap[p.list[p.done]]).lines;
    assert ls[..p.line + 1] == ls[..p.line] + [ls[p.line]];
    DecodePush(c, ls[..p.line], ls[p.line]);
  }

  lemma LineAccepted(read: Contents, p: Pass, partial: seq<Entry>, calls: seq<(nat, Entry)>, e: Entry)
    requires p.done < |p.list| && Accepted(read, p, partial, calls)
    ensures Accepted(read, Advanced(p), partial + [e], calls + [(p.list[p.done], e)])
  {
    FlatFrame(read, p, Advanced(p), p.done);
    TagAppend(p.list[p.done], partial, [e]);
    assert Tag(p.list[p.done], [e]) == [(p.list[p.done], e)];
  }

  lemma AdvanceKeepsPass(scan: Splitter, w: Wal, p: Pass)
    requires PassInv(scan, w, p) && p.done < |p.list| && p.line < |Scanned(scan, w, p).lines|
    ensures PassInv(scan, w, Advanced(p))
  {
  }

  lemma AdvanceAccepted(c: Codec, scan: Splitter, w: Wal, p: Pass, calls: seq<(nat, Entry)>)
    requires PassInv(scan, w, p) && p.done < |p.list| && p.line < |Scanned(scan, w, p).lines|
    requires Accepted(Reader(c), p, Partial(c, scan, p), calls)
    ensures var d := DecodeLine(c, Scanned(scan, w, p).lines[p.line]);
      Accepted(Reader(c), Advanced(p), Partial(c, scan, Advanced(p)),
               if d.Some? then calls + [(p.list[p.done], d.value)] else calls)
  {
    var d := DecodeLine(c, Scanned(scan, w, p).lines[p.line]);
    var was := Partial(c, scan, p);
    assert Partial(c, scan, Advanced(p)) == if d.Some? then was + [d.value] else was by {
      PartialGrows(c, scan, p);
    }
    if d.Some? {
      LineAccepted(Reader(c), p, was, calls, d.value);
    } else {
      FlatFrame(Reader(c), p, Advanced(p), p.done);
    }
  }

  lemma LineKeeps(c: Codec, scan: Splitter, s: State, accept: bool)
    requires CallsInv(c, scan, s) && Enabled(scan, s, Line(accept))
    ensures CallsInv(c, scan, LineStep(c, scan, s, accept))
  {
    AdvanceKeepsPass(scan, s.w, s.pass.value);
    AdvanceAccepted(c, scan, s.w, s.pass.value, s.calls);
  }

  /** At the end of a segment everything decodable in it was accepted. */
  lemma WholeSegment(c: Codec, scan: Splitter, w: Wal, p: Pass)
    requires Complete(scan) && PassInv(scan, w, p) && p.done < |p.list|
    requires p.line == |Scanned(scan, w, p).lines| && !Scanned(scan, w, p).tooLong
    ensures Partial(c, scan, p) == Entries(c, w.disk[p.list[p.done]])
  {
    var ls := Scanned(scan, w, p).lines;
    assert ls[..p.line] == ls;
  }

  lemma FinishAccepted(read: Contents, p: Pass, partial: seq<Entry>, calls: seq<(nat, Entry)>, removable: bool)
    requires p.done < |p.list| && Accepted(read, p, partial, calls)
    requires Tag(p.list[p.done], partial) == Block(read, p.snap, p.list[p.done])
    ensures Accepted(read, Finished(p, removable), [], calls)
  {
    var q := Finished(p, removable);
    FlatFrame(read, p, q, p.done);
    assert calls == Flat(read, q, q.done);
    assert calls + [] == calls;
  }

  lemma WholeAccepted(c: Codec, scan: Splitter, w: Wal, p: Pass, calls: seq<(nat, Entry)>, removable: bool)
    requires Complete(scan) && PassInv(scan, w, p) && p.done < |p.list|
    requires Accepted(Reader(c), p, Partial(c, scan, p), calls)
    requires p.line == |Scanned(scan, w, p).lines| && !Scanned(scan, w, p).tooLong
    ensures Accepted(Reader(c), Finished(p, removable), Partial(c, scan, Finished(p, removable)), calls)
  {
    WholeSegment(c, scan, w, p);
    FinishAccepted(Reader(c), p, Partial(c, scan, p), calls, removable);
    FreshSegment(c, scan, Finished(p, removable));
  }

  lemma FinishKeeps(c: Codec, scan: Splitter, s: State, removable: bool)
    requires Complete(scan) && CallsInv(c, scan, s) && Enabled(scan, s, Finish(removable))
    ensures CallsInv(c, scan, FinishStep(scan, s, removable))
  {
    var p := s.pass.value;
    if !Scanned(scan, s.w, p).tooLong {
      FinishKeepsPass(scan, s.w, p, removable);
      FinishKeepsCleared(s.w, p, removable);
      WholeAccepted(c, scan, s.w, p, s.calls, removable);
    }
  }

  lemma FreshSegment(c: Codec, scan: Splitter, p: Pass)
    requires p.line == 0
    ensures Partial(c, scan, p) == []
  {
  }

  lemma BeginKeeps(c: Codec, scan: Splitter, w: Wal, list: seq<nat>)
    requires Shape(w) && Lists(list, w.disk.Keys - {w.name})
    ensures CallsInv(c, scan, State.State(w, Some(Begun(w, list)), []))
  {
    BeginPass(c, scan, w, list);
    FreshSegment(c, scan, Begun(w, list));
  }

  lemma WriterKeepsCalls(c: Codec, cfg: Config, scan: Splitter, s: State, e: WalRuns.Event)
    requires Shape(s.w) && CallsInv(c, scan, s) && WalRuns.Enabled(s.w, e) && !e.Delete?
    ensures CallsInv(c, scan, s.(w := WalRuns.Step(c, cfg, s.w, e)))
  {
    if s.pass.Some? {
      WriterKeepsPass(c, cfg, scan, s.w, s.pass.value, e);
      WriterKeepsCleared(c, cfg, scan, s.w, s.pass.value, e);
    }
  }

  lemma StepInv(c: Codec, cfg: Config, scan: Splitter, s: State, ev: Event)
    requires Lawful(c) && Complete(scan) && Inv(c, scan, s) && Enabled(scan, s, ev)
    ensures Inv(c, scan, Step(c, cfg, scan, s, ev))
  {
    match ev
    case Writer(e) =>
      WriterKeepsLog(c, cfg, s.w, e);
      WriterKeepsCalls(c, cfg, scan, s, e);
    case Begin(list) =>
      BeginKeeps(c, scan, s.w, list);
    case Line(accept) =>
      LineKeeps(c, scan, s, accept);
    case Finish(removable) =>
      FinishKeeps(c, scan, s, removable);
      FinishKeepsLog(c, scan, s, removable);
  }

  lemma WriterKeepsLog(c: Codec, cfg: Config, w: Wal, e: WalRuns.Event)
    requires Lawful(c) && WalLog.Inv(c, w) && WalRuns.Enabled(w, e)
    ensures WalLog.Inv(c, WalRuns.Step(c, cfg, w, e))
  {
    match e
    case WriteEntry(x) =>
      if Encodable(c, x) {
        WriteRefines(c, cfg, w, x);
      }
    case FlushBuffer(k) => FlushRefines(c, w, k);
    case CloseWriter => CloseRefines(c, w);
    case Reopen => ReopenRefines(c, w);
    case CrashRestart(k) => CrashRefines(c, w, k);
    case Delete(n) => RemoveRefines(c, w, n);
  }

  lemma FinishKeepsLog(c: Codec, scan: Splitter, s: State, removable: bool)
    requires Lawful(c) && Inv(c, scan, s) && Enabled(scan, s, Finish(removable))
    ensures WalLog.Inv(c, FinishStep(scan, s, removable).w)
  {
  }

  // ---------- whole runs ----------

  ghost predicate IsRun(c: Codec, cfg: Config, scan: Splitter, s: State, evs: seq<Event>)
    decreases |evs|
  {
    evs == [] || (Enabled(scan, s, evs[0]) && IsRun(c, cfg, scan, Step(c, cfg, scan, s, evs[0]), evs[1..]))
  }

  ghost function Run(c: Codec, cfg: Config, scan: Splitter, s: State, evs: seq<Event>): State
    requires IsRun(c, cfg, scan, s, evs)
    decreases |evs|
  {
    if evs == [] then s else Run(c, cfg, scan, Step(c, cfg, scan, s, evs[0]), evs[1..])
  }

  lemma {:induction false} RunInv(c: Codec, cfg: Config, scan: Splitter, s: State, evs: seq<Event>)
    requires Lawful(c) && Complete(scan) && Inv(c, scan, s) && IsRun(c, cfg, scan, s, evs)
    ensures Inv(c, scan, Run(c, cfg, scan, s, evs))
    decreases |evs|
  {
    if evs != [] {
      StepInv(c, cfg, scan, s, evs[0]);
      RunInv(c, cfg, scan, Step(c, cfg, scan, s, evs[0]), evs[1..]);
    }
  }

  /** After any run, however writers rotated meanwhile: the segment a pass is at exists, is not the active
      one, and has the bytes it had when it was listed. */
  lemma {:induction false} PassNeverTouchesActive(c: Codec, cfg: Config, scan: Splitter, s: State, evs: seq<Event>)
    requires Lawful(c) && Complete(scan) && Inv(c, scan, s) && IsRun(c, cfg, scan, s, evs)
    ensures var r := Run(c, cfg, scan, s, evs);
      r.pass.Some? && r.pass.value.done < |r.pass.value.list| ==>
        var n := r.pass.value.list[r.pass.value.done];
        n in r.w.disk && n in r.pass.value.snap && n != r.w.name && r.w.disk[n] == r.pass.value.snap[n]
  {
    RunInv(c, cfg, scan, s, evs);
  }

  /** A segment disappears only at the end of a pass over it in which the callback accepted all its
      decodable entries, and all those of the segments listed before it, in order. */
  lemma {:induction false} DeletedOnlyAfterFullPass(c: Codec, cfg: Config, scan: Splitter, s: State, evs: seq<Event>,
                                                    r: State, ev: Event, n: nat)
    requires Lawful(c) && Complete(scan) && Inv(c, scan, s)
    requires IsRun(c, cfg, scan, s, evs) && r == Run(c, cfg, scan, s, evs)
    requires Enabled(scan, r, ev) && n in r.w.disk && n !in Step(c, cfg, scan, r, ev).w.disk
    ensures ev == Finish(true) && r.pass.Some? && r.pass.value.done < |r.pass.value.list|
    ensures n == r.pass.value.list[r.pass.value.done] && !Scanned(scan, r.w, r.pass.value).tooLong
    ensures r.calls == Flat(Reader(c), r.pass.value, r.pass.value.done) + Tag(n, Entries(c, r.w.disk[n]))
  {
    RunInv(c, cfg, scan, s, evs);
    match ev
    case Writer(e) =>
      WalRuns.StepSealed(c, cfg, r.w, e, n);
      NumbersSurvive(c, cfg, r.w, e);
      assert false;
    case Begin(_) => assert false;
    case Line(_) => assert false;
    case Finish(removable) =>
      WholeSegment(c, scan, r.w, r.pass.value);
  }

  /** Writers never remove a file. */
  lemma NumbersSurvive(c: Codec, cfg: Config, w: Wal, ev: WalRuns.Event)
    requires Shape(w) && WalRuns.Enabled(w, ev) && !ev.Delete?
    ensures w.disk.Keys <= WalRuns.Step(c, cfg, w, ev).disk.Keys
  {
  }

  /** No removal of the pass under way has failed. */
  ghost predicate NoneFailed(s: State) {
    s.pass.Some? ==> |s.pass.value.removed| == s.pass.value.done
  }

  lemma {:induction false} RemovalsSucceed(c: Codec, cfg: Config, scan: Splitter, s: State, evs: seq<Event>)
    requires NoneFailed(s) && IsRun(c, cfg, scan, s, evs)
    requires forall i :: 0 <= i < |evs| && evs[i].Finish? ==> evs[i].removable
    ensures NoneFailed(Run(c, cfg, scan, s, evs))
    decreases |evs|
  {
    if evs != [] {
      assert NoneFailed(Step(c, cfg, scan, s, evs[0]));
      assert forall i :: 0 <= i < |evs[1..]| ==> evs[1..][i] == evs[i + 1];
      RemovalsSucceed(c, cfg, scan, Step(c, cfg, scan, s, evs[0]), evs[1..]);
    }
  }

  lemma PrefixGone(scan: Splitter, w: Wal, p: Pass)
    requires PassInv(scan, w, p) && Cleared(w, p) && |p.removed| == p.done
    ensures forall n :: n in p.snap ==> (n !in w.disk <==> n in p.list[..p.done])
  {
  }

  /** Whatever writers do meanwhile: of the files there were at the listing, only segments the pass has finished are
      ever gone from the disk, and if no removal in the run failed, those gone are exactly the prefix of the list it
      has finished. A segment with a line too long to scan stops every pass before it, whatever happens. */
  lemma {:induction false} DeletionsArePrefix(c: Codec, cfg: Config, scan: Splitter, s: State, evs: seq<Event>)
    requires Lawful(c) && Complete(scan) && Inv(c, scan, s) && IsRun(c, cfg, scan, s, evs)
    ensures var r := Run(c, cfg, scan, s, evs);
      r.pass.Some? ==>
        var p := r.pass.value;
        && p.done <= |p.list| && (forall i :: 0 <= i < |p.list| ==> p.list[i] in p.snap)
        && (forall n :: n in p.snap && n !in r.w.disk ==> n in p.list[..p.done])
        && (NoneFailed(s) && (forall i :: 0 <= i < |evs| && evs[i].Finish? ==> evs[i].removable) ==>
              forall n :: n in p.snap ==> (n !in r.w.disk <==> n in p.list[..p.done]))
        && (forall i :: 0 <= i < |p.list| && scan(p.snap[p.list[i]]).tooLong ==> p.done <= i)
  {
    RunInv(c, cfg, scan, s, evs);
    var r := Run(c, cfg, scan, s, evs);
    if r.pass.Some? {
      OnlyFinishedGone(scan, r.w, r.pass.value);
      if NoneFailed(s) && forall i :: 0 <= i < |evs| && evs[i].Finish? ==> evs[i].removable {
        RemovalsSucceed(c, cfg, scan, s, evs);
        PrefixGone(scan, r.w, r.pass.value);
      }
    }
  }

  lemma OnlyFinishedGone(scan: Splitter, w: Wal, p: Pass)
    requires PassInv(scan, w, p) && Cleared(w, p)
    ensures forall n :: n in p.snap && n !in w.disk ==> n in p.list[..p.done]
  {
    forall n | n in p.snap && n !in w.disk ensures n in p.list[..p.done] {
      var i :| 0 <= i < |p.list| && p.list[i] == n;
      assert i < p.done;
      assert p.list[..p.done][i] == n;
    }
  }

  // ---------- the listing as two separate reads ----------

  /** If the name is read first and the directory only after further writer steps, the listing contains
      the active segment exactly when a rotation fell in between. */
  lemma SplitListing(w: Wal, later: Wal, list: seq<nat>)
    requires Shape(w) && Shape(later) && later.name != 0
    requires Lists(list, later.disk.Keys - {w.name})
    ensures later.name in list <==> later.name != w.name
  {
  }

  /** And then an entry can be lost: name read, write of `x` rotates, directory listed, new segment
      replayed, `y` written to it, segment removed. `y` was never handed to the callback. */
  lemma SplitListingLoses(c: Codec, cfg: Config, w: Wal, x: Entry, y: Entry, list: seq<nat>)
    requires Lawful(c) && WalLog.Inv(c, w) && w.open && cfg.flushEach
    requires Encodable(c, x) && Encodable(c, y)
    requires w.size + |Record(c, x)| > cfg.maxSegment >= |Record(c, x)| + |Record(c, y)|
    requires Lists(list, Write(c, cfg, w, x).disk.Keys - {w.name})
    ensures var w1 := Write(c, cfg, w, x); var w2 := Write(c, cfg, w1, y); var n := w1.name;
      && n in list && n in w1.disk && Entries(c, w1.disk[n]) == [Normal(c, x)]
      && View(c, w2) == View(c, w) + [(n, Normal(c, x)), (n, Normal(c, y))]
      && View(c, Remove(w2, n)) == View(c, w)
  {
    var w1, w2 := TwoWrites(c, cfg, w, x, y);
    RecordEntries(c, x);
    SegmentDropped(Reader(c), w, w2);
    assert View(c, w) + [(w1.name, Normal(c, x))] + [(w1.name, Normal(c, y))]
        == View(c, w) + [(w1.name, Normal(c, x)), (w1.name, Normal(c, y))];
  }

  /** The two writes, with the logs as results: the first rotates, the second does not. */
  lemma TwoWrites(c: Codec, cfg: Config, w: Wal, x: Entry, y: Entry) returns (w1: Wal, w2: Wal)
    requires Lawful(c) && WalLog.Inv(c, w) && w.open && cfg.flushEach
    requires Encodable(c, x) && Encodable(c, y)
    requires w.size + |Record(c, x)| > cfg.maxSegment >= |Record(c, x)| + |Record(c, y)|
    ensures w1 == Write(c, cfg, w, x) && w2 == Write(c, cfg, w1, y) && w1.name == w2.name == w.name + 1
    ensures w1.name in w1.disk && w1.disk[w1.name] == Record(c, x)
    ensures w2.name in w2.disk && Files(w2) == w2.disk == Files(w)[w2.name := w2.disk[w2.name]]
    ensures View(c, w1) == View(c, w) + [(w1.name, Normal(c, x))]
    ensures View(c, w2) == View(c, w1) + [(w2.name, Normal(c, y))]
  {
    w1 := Write(c, cfg, w, x);
    WriteRefines(c, cfg, w, x);
    PutShape(cfg, w, Record(c, x));
    assert [] + Record(c, x) == Record(c, x);
    w2 := Write(c, cfg, w1, y);
    WriteRefines(c, cfg, w1, y);
    PutShape(cfg, w1, Record(c, y));
  }

  /** Removing a segment that a rotation added takes the log back to where it was. */
  lemma SegmentDropped(read: Contents, w: Wal, later: Wal)
    requires Shape(w) && later.name == w.name + 1 && later.name in later.disk
    requires later.disk == Files(w)[later.name := later.disk[later.name]]
    ensures Upto(read, Files(Remove(later, later.name)), later.name) == Upto(read, Files(w), w.name)
  {
    var files := Files(Remove(later, later.name));
    UptoFrame(read, Files(w), files, w.name);
    assert Upto(read, files, later.name) == Upto(read, files, w.name) + [];
  }
}
