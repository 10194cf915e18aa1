/** Whole runs of the log: any sequence of writes, flushes, closes, restarts, crashes and deletions. */
module WalRuns {
  import opened Framing
  import opened Codecs
  import opened WalLog

  datatype Event =
    | WriteEntry(e: Entry)
    | FlushBuffer(k: nat)
    | CloseWriter
    | Reopen
    | CrashRestart(k: nat)
    | Delete(n: nat)

  /** `Reopen` is a restart after a clean close; `Delete` is what replay does to a sealed segment. */
  predicate Enabled(w: Wal, ev: Event) {
    match ev
    case Reopen => !w.open
    case Delete(n) => n in w.disk && n != w.name
    case _ => true
  }

  ghost function Step(c: Codec, cfg: Config, w: Wal, ev: Event): Wal {
    match ev
    case WriteEntry(e) => Write(c, cfg, w, e)
    case FlushBuffer(k) => Flush(w, k)
    case CloseWriter => Close(w)
    case Reopen => Restart(w.disk)
    case CrashRestart(k) => Crash(w, k)
    case Delete(n) => Remove(w, n)
  }

  /** The log with its history: every entry ever written and not torn by a crash, and the segments
      deleted. `before` is the part of `written` that went to segments below the active one. */
  datatype Trace = Trace(w: Wal, written: seq<(nat, Entry)>, deleted: set<nat>, before: seq<(nat, Entry)>)

  /** History after a step to `w` that first loses the last `torn` entries, then gains `more`. */
  function Grow(t: Trace, w: Wal, torn: nat, more: seq<(nat, Entry)>): Trace {
    var left := if torn <= |t.written| then t.written[..|t.written| - torn] else [];
    Trace(w, left + more, t.deleted, if w.name == t.w.name then t.before else left)
  }

  ghost function TraceStep(c: Codec, cfg: Config, t: Trace, ev: Event): Trace
    requires Lawful(c) && Inv(c, t.w)
  {
    var w := Step(c, cfg, t.w, ev);
    match ev
    case WriteEntry(e) => Grow(t, w, 0, if Encodable(c, e) then [(w.name, Normal(c, e))] else [])
    case CrashRestart(k) => Grow(t, w, |Active(c, t.w)| - Kept(c, t.w, k), [])
    case Delete(n) => t.(w := w, deleted := t.deleted + {n})
    case _ => Grow(t, w, 0, [])
  }

  /** The entries of `q` outside the segments `gone`. */
  function KeepOut(q: seq<(nat, Entry)>, gone: set<nat>): seq<(nat, Entry)> {
    if q == [] then [] else
      (if q[0].0 in gone then [] else [q[0]]) + KeepOut(q[1..], gone)
  }

  lemma {:induction false} KeepOutAppend(p: seq<(nat, Entry)>, q: seq<(nat, Entry)>, gone: set<nat>)
    ensures KeepOut(p + q, gone) == KeepOut(p, gone) + KeepOut(q, gone)
  {
    if p == [] {
      assert p + q == q;
    } else {
      assert (p + q)[1..] == p[1..] + q;
      KeepOutAppend(p[1..], q, gone);
    }
  }

  lemma {:induction false} KeepOutMore(q: seq<(nat, Entry)>, gone: set<nat>, n: nat)
    ensures KeepOut(q, gone + {n}) == Without(KeepOut(q, gone), n)
  {
    if q != [] {
      KeepOutMore(q[1..], gone, n);
      var head := if q[0].0 in gone then [] else [q[0]];
      WithoutAppend(head, KeepOut(q[1..], gone), n);
      assert Without(head, n) == if q[0].0 in gone + {n} then [] else [q[0]];
    }
  }

  lemma {:induction false} KeepOutTag(n: nat, es: seq<Entry>, gone: set<nat>)
    requires n !in gone
    ensures KeepOut(Tag(n, es), gone) == Tag(n, es)
  {
    if es != [] {
      assert Tag(n, es)[1..] == Tag(n, es[1..]);
      KeepOutTag(n, es[1..], gone);
      assert Tag(n, es) == [(n, es[0])] + Tag(n, es[1..]);
    }
  }

  // ---------- how one step moves the active segment ----------

  /** Between two states the active segment either stays, keeping `kept` and gaining `more`, or is
      sealed with `kept` in it and the next number takes over with `more`. */
  ghost predicate Moves(read: Contents, w: Wal, r: Wal, kept: seq<Entry>, more: seq<Entry>) {
    Moved(w.name, SealedIn(read, w), kept, more, r.name, SealedIn(read, r), ActiveIn(read, r))
  }

  ghost predicate Moved(name: nat, sealed: seq<(nat, Entry)>, kept: seq<Entry>, more: seq<Entry>,
                        next: nat, sealedNext: seq<(nat, Entry)>, activeNext: seq<Entry>) {
    || (next == name && sealedNext == sealed && activeNext == kept + more)
    || (next == name + 1 && sealedNext == sealed + Tag(name, kept) && activeNext == more)
  }

  /** The file map after a move, seen through any reader: the old active segment holds `b`, and if the
      number advanced the new one holds `last`. */
  lemma FilesMove(read: Contents, w: Wal, r: Wal, b: Bytes, last: Bytes, kept: seq<Entry>, more: seq<Entry>)
    requires Shape(w)
    requires r.name == w.name ==> w.name != 0 && Files(r) == Files(w)[w.name := b] && read(b) == kept + more
    requires r.name != w.name ==>
      && r.name == w.name + 1 && read(last) == more
      && Files(r) == (if w.name == 0 then Files(w) else Files(w)[w.name := b])[r.name := last]
      && kept == if w.name == 0 then [] else read(b)
    ensures Moves(read, w, r, kept, more)
  {
    if w.name != 0 {
      UptoFrame(read, Files(w), Files(r), w.name - 1);
    }
  }

  lemma WriteMoves(c: Codec, cfg: Config, w: Wal, e: Entry)
    requires Lawful(c) && Inv(c, w) && Encodable(c, e)
    ensures Moves(Reader(c), w, Write(c, cfg, w, e), Active(c, w), [Normal(c, e)])
  {
    var rec := Record(c, e);
    var r := Put(cfg, w, rec);
    PutShape(cfg, w, rec);
    if r.name == w.name {
      FramedPush(c, Files(w)[w.name], e);
      FilesMove(Reader(c), w, r, Files(w)[w.name] + rec, [], Active(c, w), [Normal(c, e)]);
    } else {
      FramedEmpty(c);
      FramedPush(c, [], e);
      assert [] + [Normal(c, e)] == [Normal(c, e)];
      if w.name != 0 {
        assert Files(w)[w.name := Files(w)[w.name]] == Files(w);
        FilesMove(Reader(c), w, r, Files(w)[w.name], [] + rec, Active(c, w), [Normal(c, e)]);
      } else {
        FilesMove(Reader(c), w, r, [], [] + rec, [], [Normal(c, e)]);
      }
    }
  }

  lemma RestartMoves(read: Contents, w: Wal, left: map<nat, Bytes>, kept: seq<Entry>)
    requires Shape(w) && read([]) == []
    requires left.Keys == Files(w).Keys
    requires w.name != 0 ==> left == Files(w)[w.name := left[w.name]] && read(left[w.name]) == kept
    requires w.name == 0 ==> kept == []
    ensures left == map[] || Moves(read, w, Restart(left), kept, [])
    ensures left == map[] ==> Restart(left).name == w.name == 0
  {
    MaxIsActive(w);
    RestartShape(left);
    var r := Restart(left);
    if w.name != 0 {
      assert kept + [] == kept;
      FilesMove(read, w, r, left[w.name], [], kept, []);
    }
  }

  // ---------- the invariant of a traced run ----------

  /** The tail of the history is the active segment; the rest, without the deleted segments, is what is sealed. */
  ghost predicate Recorded(t: Trace, sealed: seq<(nat, Entry)>, active: seq<Entry>) {
    && (forall n :: n in t.deleted ==> n < t.w.name)
    && t.written == t.before + Tag(t.w.name, active)
    && KeepOut(t.before, t.deleted) == sealed
  }

  ghost predicate History(read: Contents, t: Trace) {
    Recorded(t, SealedIn(read, t.w), ActiveIn(read, t.w))
  }

  ghost predicate TraceInv(c: Codec, t: Trace) {
    Inv(c, t.w) && History(Reader(c), t)
  }

  /** The queue theorem for one state: the log is what was written and not deleted, in write order. */
  lemma HistoryView(read: Contents, t: Trace)
    requires Shape(t.w) && t.w.name !in t.deleted && History(read, t)
    ensures Upto(read, Files(t.w), t.w.name) == KeepOut(t.written, t.deleted)
  {
    var act := ActiveIn(read, t.w);
    KeepOutTagged(t.before, t.deleted, t.w.name, act);
    ViewParts(read, t.w);
  }

  lemma CutTagged(before: seq<(nat, Entry)>, n: nat, es: seq<Entry>, m: nat)
    requires m <= |es|
    ensures (before + Tag(n, es))[..|before| + m] == before + Tag(n, es[..m])
  {
  }

  lemma TaggedTogether(before: seq<(nat, Entry)>, n: nat, kept: seq<Entry>, more: seq<Entry>)
    ensures before + Tag(n, kept) + Tag(n, more) == before + Tag(n, kept + more)
  {
    TagAppend(n, kept, more);
  }

  lemma KeepOutTagged(before: seq<(nat, Entry)>, gone: set<nat>, n: nat, kept: seq<Entry>)
    requires n !in gone
    ensures KeepOut(before + Tag(n, kept), gone) == KeepOut(before, gone) + Tag(n, kept)
  {
    KeepOutAppend(before, Tag(n, kept), gone);
    KeepOutTag(n, kept, gone);
  }

  /** Writing history forward along a move. */
  lemma RecordedMoves(t: Trace, r: Wal, sealed: seq<(nat, Entry)>, act: seq<Entry>, m: nat, more: seq<Entry>,
                      sealedNext: seq<(nat, Entry)>, activeNext: seq<Entry>)
    requires Recorded(t, sealed, act) && m <= |act|
    requires Moved(t.w.name, sealed, act[..m], more, r.name, sealedNext, activeNext)
    ensures Recorded(Grow(t, r, |act| - m, Tag(r.name, more)), sealedNext, activeNext)
  {
    CutTagged(t.before, t.w.name, act, m);
    if r.name == t.w.name {
      TaggedTogether(t.before, r.name, act[..m], more);
    } else {
      KeepOutTagged(t.before, t.deleted, t.w.name, act[..m]);
    }
  }

  lemma MoveKeepsHistory(read: Contents, t: Trace, r: Wal, m: nat, more: seq<Entry>)
    requires History(read, t) && m <= |ActiveIn(read, t.w)|
    requires Moves(read, t.w, r, ActiveIn(read, t.w)[..m], more)
    ensures History(read, Grow(t, r, |ActiveIn(read, t.w)| - m, Tag(r.name, more)))
  {
    var act := ActiveIn(read, t.w);
    var next := Grow(t, r, |act| - m, Tag(r.name, more));
    assert next.w == r;
    assert Recorded(next, SealedIn(read, r), ActiveIn(read, r)) by {
      RecordedMoves(t, r, SealedIn(read, t.w), act, m, more, SealedIn(read, r), ActiveIn(read, r));
    }
  }

  /** A step that touches neither contents nor numbers. */
  lemma StillKeepsHistory(read: Contents, t: Trace, r: Wal)
    requires History(read, t) && r.name == t.w.name && Files(r) == Files(t.w)
    ensures History(read, Grow(t, r, 0, []))
  {
  }

  lemma RecordedDeletes(t: Trace, r: Wal, sealed: seq<(nat, Entry)>, act: seq<Entry>, n: nat)
    requires Recorded(t, sealed, act) && r.name == t.w.name && n < t.w.name
    ensures Recorded(t.(w := r, deleted := t.deleted + {n}), Without(sealed, n), act)
  {
    KeepOutMore(t.before, t.deleted, n);
  }

  lemma RemoveParts(read: Contents, w: Wal, n: nat)
    requires Shape(w) && Enabled(w, Delete(n))
    ensures SealedIn(read, Remove(w, n)) == Without(SealedIn(read, w), n)
    ensures ActiveIn(read, Remove(w, n)) == ActiveIn(read, w)
  {
    RemoveShape(w, n);
    UptoRemove(read, Files(w), n, w.name - 1);
  }

  lemma DeleteKeepsHistory(read: Contents, t: Trace, n: nat)
    requires Shape(t.w) && History(read, t) && Enabled(t.w, Delete(n))
    ensures History(read, t.(w := Remove(t.w, n), deleted := t.deleted + {n}))
  {
    RemoveParts(read, t.w, n);
    RecordedDeletes(t, Remove(t.w, n), SealedIn(read, t.w), ActiveIn(read, t.w), n);
  }

  /** The write step, with the new log as a variable. */
  lemma TraceGrows(c: Codec, t: Trace, r: Wal, e: Entry)
    requires TraceInv(c, t) && Inv(c, r)
    requires Moves(Reader(c), t.w, r, Active(c, t.w), [Normal(c, e)])
    ensures TraceInv(c, Grow(t, r, 0, [(r.name, Normal(c, e))]))
  {
    GrowsByOne(Reader(c), t, r, Normal(c, e));
  }

  lemma GrowsByOne(read: Contents, t: Trace, r: Wal, e: Entry)
    requires History(read, t) && Moves(read, t.w, r, ActiveIn(read, t.w), [e])
    ensures History(read, Grow(t, r, 0, [(r.name, e)]))
  {
    var act := ActiveIn(read, t.w);
    assert act[..|act|] == act;
    MoveKeepsHistory(read, t, r, |act|, [e]);
    assert Tag(r.name, [e]) == [(r.name, e)];
  }

  lemma TraceWrite(c: Codec, cfg: Config, t: Trace, e: Entry)
    requires Lawful(c) && TraceInv(c, t)
    ensures TraceInv(c, TraceStep(c, cfg, t, WriteEntry(e)))
  {
    if Encodable(c, e) {
      WriteRefines(c, cfg, t.w, e);
      WriteMoves(c, cfg, t.w, e);
      TraceGrows(c, t, Write(c, cfg, t.w, e), e);
    } else {
      StillKeepsHistory(Reader(c), t, t.w);
    }
  }

  /** A restart from files `left`, as far as the history is concerned. */
  lemma RestartKeepsHistory(read: Contents, t: Trace, left: map<nat, Bytes>, m: nat)
    requires Shape(t.w) && History(read, t) && read([]) == []
    requires left.Keys == Files(t.w).Keys && m <= |ActiveIn(read, t.w)|
    requires t.w.name != 0 ==>
      left == Files(t.w)[t.w.name := left[t.w.name]] && read(left[t.w.name]) == ActiveIn(read, t.w)[..m]
    ensures History(read, Grow(t, Restart(left), |ActiveIn(read, t.w)| - m, []))
  {
    var act := ActiveIn(read, t.w);
    RestartMoves(read, t.w, left, act[..m]);
    if left == map[] {
      RestartShape(left);
      StillKeepsHistory(read, t, Restart(left));
    } else {
      MoveKeepsHistory(read, t, Restart(left), m, []);
    }
  }

  /** The files found at a restart: the old ones, the last possibly cut. */
  ghost predicate Found(read: Contents, w: Wal, left: map<nat, Bytes>, m: nat) {
    && 0 !in left && left.Keys == Files(w).Keys && m <= |ActiveIn(read, w)|
    && (w.name != 0 && w.name in left ==>
          left == Files(w)[w.name := left[w.name]] && read(left[w.name]) == ActiveIn(read, w)[..m])
  }

  lemma RestartsHistory(read: Contents, t: Trace, left: map<nat, Bytes>, m: nat)
    requires Shape(t.w) && History(read, t) && Found(read, t.w, left, m) && read([]) == []
    ensures History(read, Grow(t, Restart(left), |ActiveIn(read, t.w)| - m, []))
  {
    RestartKeepsHistory(read, t, left, m);
  }

  lemma EmptyFile(c: Codec)
    ensures Reader(c)([]) == []
  {
  }

  lemma RestartsInv(c: Codec, left: map<nat, Bytes>)
    requires 0 !in left
    ensures Inv(c, Restart(left))
  {
  }

  lemma LeftoverFound(c: Codec, w: Wal, k: nat)
    requires Lawful(c) && Inv(c, w)
    ensures Found(Reader(c), w, Leftover(w, k), Kept(c, w, k))
  {
    LeftoverRead(c, w, k);
    assert Leftover(w, k).Keys == Files(w).Keys;
  }

  lemma CrashIsRestart(c: Codec, cfg: Config, t: Trace, k: nat)
    requires Lawful(c) && Inv(c, t.w)
    ensures TraceStep(c, cfg, t, CrashRestart(k))
         == Grow(t, Restart(Leftover(t.w, k)), |Active(c, t.w)| - Kept(c, t.w, k), [])
  {
  }

  /** A restart on the files found, whatever the reader. */
  lemma TraceFound(c: Codec, read: Contents, t: Trace, left: map<nat, Bytes>, m: nat, r: Trace)
    requires Inv(c, t.w) && History(read, t) && Found(read, t.w, left, m) && read([]) == []
    requires r == Grow(t, Restart(left), |ActiveIn(read, t.w)| - m, [])
    ensures Inv(c, r.w) && History(read, r)
  {
    RestartsInv(c, left);
    RestartsHistory(read, t, left, m);
  }

  /** What a closed log leaves: its files, with every entry. */
  lemma CloseLeaves(c: Codec, cfg: Config, t: Trace) returns (left: map<nat, Bytes>, m: nat)
    requires Lawful(c) && Inv(c, t.w) && !t.w.open
    ensures Found(Reader(c), t.w, left, m)
    ensures TraceStep(c, cfg, t, Reopen) == Grow(t, Restart(left), |Active(c, t.w)| - m, [])
  {
    var act := Active(c, t.w);
    assert act[..|act|] == act;
    left, m := t.w.disk, |act|;
  }

  lemma TraceReopen(c: Codec, cfg: Config, t: Trace)
    requires Lawful(c) && TraceInv(c, t) && !t.w.open
    ensures TraceInv(c, TraceStep(c, cfg, t, Reopen))
  {
    var left, m := CloseLeaves(c, cfg, t);
    EmptyFile(c);
    TraceFound(c, Reader(c), t, left, m, TraceStep(c, cfg, t, Reopen));
  }

  /** What a crash leaves, with the files and the number of survivors as results. */
  lemma CrashLeaves(c: Codec, cfg: Config, t: Trace, k: nat) returns (left: map<nat, Bytes>, m: nat)
    requires Lawful(c) && Inv(c, t.w)
    ensures Found(Reader(c), t.w, left, m)
    ensures TraceStep(c, cfg, t, CrashRestart(k)) == Grow(t, Restart(left), |Active(c, t.w)| - m, [])
  {
    left, m := Leftover(t.w, k), Kept(c, t.w, k);
    LeftoverFound(c, t.w, k);
    CrashIsRestart(c, cfg, t, k);
  }

  lemma TraceCrash(c: Codec, cfg: Config, t: Trace, k: nat)
    requires Lawful(c) && TraceInv(c, t)
    ensures TraceInv(c, TraceStep(c, cfg, t, CrashRestart(k)))
  {
    var left, m := CrashLeaves(c, cfg, t, k);
    EmptyFile(c);
    TraceFound(c, Reader(c), t, left, m, TraceStep(c, cfg, t, CrashRestart(k)));
  }

  lemma TraceStepInv(c: Codec, cfg: Config, t: Trace, ev: Event)
    requires Lawful(c) && TraceInv(c, t) && Enabled(t.w, ev)
    ensures TraceInv(c, TraceStep(c, cfg, t, ev))
    ensures TraceStep(c, cfg, t, ev).w == Step(c, cfg, t.w, ev)
  {
    match ev
    case WriteEntry(e) =>
      TraceWrite(c, cfg, t, e);
    case FlushBuffer(k) =>
      FlushRefines(c, t.w, k);
      FlushShape(t.w, k);
      StillKeepsHistory(Reader(c), t, Flush(t.w, k));
    case CloseWriter =>
      CloseRefines(c, t.w);
      CloseShape(t.w);
      StillKeepsHistory(Reader(c), t, Close(t.w));
    case Reopen =>
      TraceReopen(c, cfg, t);
    case CrashRestart(k) =>
      TraceCrash(c, cfg, t, k);
    case Delete(n) =>
      RemoveRefines(c, t.w, n);
      DeleteKeepsHistory(Reader(c), t, n);
  }

  /** A run: every event is enabled where it happens. */
  ghost predicate IsRun(c: Codec, cfg: Config, t: Trace, evs: seq<Event>)
    requires Lawful(c) && TraceInv(c, t)
    decreases |evs|
  {
    evs == [] ||
      (Enabled(t.w, evs[0]) &&
       (TraceStepInv(c, cfg, t, evs[0]); IsRun(c, cfg, TraceStep(c, cfg, t, evs[0]), evs[1..])))
  }

  ghost function Run(c: Codec, cfg: Config, t: Trace, evs: seq<Event>): (r: Trace)
    requires Lawful(c) && TraceInv(c, t) && IsRun(c, cfg, t, evs)
    ensures TraceInv(c, r)
    decreases |evs|
  {
    if evs == [] then t else
      TraceStepInv(c, cfg, t, evs[0]);
      Run(c, cfg, TraceStep(c, cfg, t, evs[0]), evs[1..])
  }

  /** A gateway that starts on an empty directory. */
  ghost function Fresh(): Trace {
    Trace(Restart(map[]), [], {}, [])
  }

  lemma FreshInv(c: Codec)
    ensures TraceInv(c, Fresh()) && View(c, Fresh().w) == []
  {
  }

  /** The queue theorem: after any run the log holds exactly what was written and neither torn by a
      crash nor deleted, in write order, and the active number is the largest on disk and was never
      used by a deleted segment. */
  lemma {:induction false} LogIsQueue(c: Codec, cfg: Config, evs: seq<Event>)
    requires Lawful(c) && TraceInv(c, Fresh()) && IsRun(c, cfg, Fresh(), evs)
    ensures var t := Run(c, cfg, Fresh(), evs);
      && View(c, t.w) == KeepOut(t.written, t.deleted)
      && (forall n :: n in t.w.disk ==> n <= t.w.name)
      && t.w.name !in t.deleted
  {
    HistoryView(Reader(c), Run(c, cfg, Fresh(), evs));
  }

  // ---------- every write synced ----------

  /** If it is a crash, it keeps what had reached the file. */
  ghost predicate Honest(w: Wal, ev: Event) {
    ev.CrashRestart? && w.open && w.name in w.disk ==> |w.disk[w.name]| <= ev.k
  }

  ghost predicate HonestRun(c: Codec, cfg: Config, t: Trace, evs: seq<Event>)
    requires Lawful(c) && TraceInv(c, t) && IsRun(c, cfg, t, evs)
    decreases |evs|
  {
    evs == [] ||
      (Honest(t.w, evs[0]) &&
       (TraceStepInv(c, cfg, t, evs[0]); HonestRun(c, cfg, TraceStep(c, cfg, t, evs[0]), evs[1..])))
  }

  /** The entries whose writes succeeded, as they come back, in order. */
  function Accepted(c: Codec, evs: seq<Event>): seq<Entry> {
    if evs == [] then [] else Adds(c, evs[0]) + Accepted(c, evs[1..])
  }

  function Adds(c: Codec, ev: Event): seq<Entry> {
    if ev.WriteEntry? && Encodable(c, ev.e) then [Normal(c, ev.e)] else []
  }

  lemma SyncedStep(c: Codec, cfg: Config, w: Wal, ev: Event)
    requires cfg.flushEach && Shape(w) && w.buf == []
    ensures Step(c, cfg, w, ev).buf == []
  {
  }

  lemma SyncedTraceStep(c: Codec, cfg: Config, t: Trace, ev: Event)
    requires cfg.flushEach && Lawful(c) && TraceInv(c, t) && t.w.buf == [] && Honest(t.w, ev)
    ensures TraceStep(c, cfg, t, ev).w.buf == []
    ensures Untag(TraceStep(c, cfg, t, ev).written) == Untag(t.written) + Adds(c, ev)
  {
    SyncedStep(c, cfg, t.w, ev);
    if ev.CrashRestart? {
      SyncedSurvives(c, t.w, ev.k);
    }
    assert t.written[..|t.written|] == t.written;
  }

  lemma AcceptedFirst(c: Codec, before: seq<Entry>, next: seq<Entry>, after: seq<Entry>, evs: seq<Event>)
    requires evs != [] && next == before + Adds(c, evs[0]) && after == next + Accepted(c, evs[1..])
    ensures after == before + Accepted(c, evs)
  {
    Regroup(before, Adds(c, evs[0]), Accepted(c, evs[1..]));
  }

  lemma Regroup(p: seq<Entry>, q: seq<Entry>, r: seq<Entry>)
    ensures (p + q) + r == p + (q + r)
  {
  }

  lemma {:induction false} SyncedRun(c: Codec, cfg: Config, t: Trace, evs: seq<Event>)
    requires cfg.flushEach && Lawful(c) && TraceInv(c, t) && t.w.buf == []
    requires IsRun(c, cfg, t, evs) && HonestRun(c, cfg, t, evs)
    ensures Untag(Run(c, cfg, t, evs).written) == Untag(t.written) + Accepted(c, evs)
    decreases |evs|
  {
    if evs != [] {
      TraceStepInv(c, cfg, t, evs[0]);
      SyncedTraceStep(c, cfg, t, evs[0]);
      var next := TraceStep(c, cfg, t, evs[0]);
      SyncedRun(c, cfg, next, evs[1..]);
      AcceptedFirst(c, Untag(t.written), Untag(next.written), Untag(Run(c, cfg, t, evs).written), evs);
    }
  }

  /** Per-write durability: with every write synced, and disks that keep what they were given, no crash in any run
      tears an entry. Every write that succeeded is in the log, in order, unless its segment was deleted. */
  lemma {:induction false} SyncedNeverTorn(c: Codec, cfg: Config, evs: seq<Event>)
    requires cfg.flushEach && Lawful(c) && TraceInv(c, Fresh()) && IsRun(c, cfg, Fresh(), evs)
    requires HonestRun(c, cfg, Fresh(), evs)
    ensures var t := Run(c, cfg, Fresh(), evs);
      Untag(t.written) == Accepted(c, evs) && View(c, t.w) == KeepOut(t.written, t.deleted)
  {
    SyncedRun(c, cfg, Fresh(), evs);
    LogIsQueue(c, cfg, evs);
    assert Untag(Fresh().written) + Accepted(c, evs) == Accepted(c, evs);
  }

  /** Numbers never go back, a new active number is unused, and a sealed segment keeps its bytes until
      it is deleted. */
  lemma StepSealed(c: Codec, cfg: Config, w: Wal, ev: Event, n: nat)
    requires Shape(w) && Enabled(w, ev)
    ensures var r := Step(c, cfg, w, ev);
      && w.name <= r.name <= w.name + 1
      && (n < w.name && n in w.disk && ev != Delete(n) ==> n in r.disk && r.disk[n] == w.disk[n])
      && (n < w.name && n !in w.disk ==> n !in r.disk)
  {
    match ev
    case WriteEntry(e) =>
      if Encodable(c, e) {
        PutSealed(cfg, w, Record(c, e), n);
      }
    case FlushBuffer(k) =>
    case CloseWriter =>
    case Reopen =>
      RestartSealed(w, w.disk, n);
    case CrashRestart(k) =>
      assert Leftover(w, k).Keys == w.disk.Keys;
      RestartSealed(w, Leftover(w, k), n);
    case Delete(m) =>
  }

  lemma PutSealed(cfg: Config, w: Wal, rec: Bytes, n: nat)
    requires Shape(w)
    ensures var r := Put(cfg, w, rec);
      && w.name <= r.name <= w.name + 1
      && (n < w.name ==> (n in r.disk <==> n in w.disk))
      && (n < w.name && n in w.disk ==> r.disk[n] == w.disk[n])
  {
    PutShape(cfg, w, rec);
    var r := Put(cfg, w, rec);
    assert n in Files(r) <==> n in r.disk;
    assert n in Files(w) <==> n in w.disk;
    if n < w.name && n in w.disk {
      assert Files(r)[n] == w.disk[n];
    }
  }

  lemma RestartSealed(w: Wal, left: map<nat, Bytes>, n: nat)
    requires Shape(w) && left.Keys == w.disk.Keys
    requires n < w.name && n in w.disk ==> left[n] == w.disk[n]
    ensures var r := Restart(left);
      && w.name <= r.name <= w.name + 1
      && (n < w.name ==> (n in r.disk <==> n in w.disk))
      && (n < w.name && n in w.disk ==> r.disk[n] == w.disk[n])
  {
    MaxIsActive(w);
    RestartShape(left);
    var r := Restart(left);
    assert n in Files(r) <==> n in r.disk;
    if n < w.name && n in w.disk {
      assert Files(r)[n] == w.disk[n];
    }
  }

  /** A rotation always picks an unused number. */
  lemma FreshNumber(c: Codec, cfg: Config, t: Trace, ev: Event)
    requires Lawful(c) && TraceInv(c, t) && Enabled(t.w, ev)
    ensures var r := Step(c, cfg, t.w, ev);
      r.name != t.w.name ==> r.name !in t.w.disk && r.name !in t.deleted
  {
    StepSealed(c, cfg, t.w, ev, 0);
  }

  /** Over a whole run: a sealed segment never becomes active again, and keeps its bytes until deleted. */
  lemma {:induction false} SealedForever(c: Codec, cfg: Config, t: Trace, evs: seq<Event>, n: nat)
    requires Lawful(c) && TraceInv(c, t) && IsRun(c, cfg, t, evs)
    requires n < t.w.name && (n in t.w.disk || n in t.deleted)
    ensures var r := Run(c, cfg, t, evs);
      && n < r.w.name
      && (n in r.w.disk ==> n in t.w.disk && r.w.disk[n] == t.w.disk[n])
      && (n !in r.w.disk ==> n in r.deleted)
    decreases |evs|
  {
    if evs != [] {
      TraceStepInv(c, cfg, t, evs[0]);
      StepSealed(c, cfg, t.w, evs[0], n);
      var t1 := TraceStep(c, cfg, t, evs[0]);
      assert t.deleted <= t1.deleted;
      SealedForever(c, cfg, t1, evs[1..], n);
    }
  }
}
