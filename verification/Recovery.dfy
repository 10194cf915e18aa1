/** What replay hands to the callback, in terms of the queue: over every run, and after a crash. */
module Recovery {
  import opened Bags
  import opened Framing
  import opened Codecs
  import opened WalLog
  import opened Replay
  import opened ReplayRuns
  import WalSizes

  // ---------- every pass goes through the queue ----------

  /** The calls of a pass are the queue as it was listed: below the segment it is at plus the lines done there, or
      all of it below the active segment once the pass is through. */
  ghost predicate InOrder(c: Codec, scan: Splitter, p: Pass, calls: seq<(nat, Entry)>) {
    && p.done <= |p.list|
    && (p.done == |p.list| ==> calls == Below(Reader(c), p.snap, p.active))
    && (p.done < |p.list| ==>
          calls == Below(Reader(c), p.snap, p.list[p.done]) + Tag(p.list[p.done], Partial(c, scan, p)))
  }

  lemma AcceptedInOrder(c: Codec, scan: Splitter, p: Pass, calls: seq<(nat, Entry)>)
    requires Sealing(p.list, p.snap, p.active) && Accepted(Reader(c), p, Partial(c, scan, p), calls)
    ensures InOrder(c, scan, p, calls)
  {
    ListedBelow(Reader(c), p.snap, p.list, p.active, p.done);
  }

  /** In every state of every run, whatever writers do meanwhile. */
  lemma {:induction false} ReplayYieldsQueue(c: Codec, cfg: Config, scan: Splitter, s: State, evs: seq<Event>)
    requires Lawful(c) && Complete(scan) && ReplayRuns.Inv(c, scan, s) && IsRun(c, cfg, scan, s, evs)
    ensures var r := Run(c, cfg, scan, s, evs); r.pass.Some? ==> InOrder(c, scan, r.pass.value, r.calls)
  {
    RunInv(c, cfg, scan, s, evs);
    var r := Run(c, cfg, scan, s, evs);
    if r.pass.Some? {
      AcceptedInOrder(c, scan, r.pass.value, r.calls);
    }
  }

  lemma {:induction false} UptoPrefix(read: Contents, f: map<nat, Bytes>, m: nat, n: nat)
    requires m <= n
    ensures Upto(read, f, m) <= Upto(read, f, n)
    decreases n
  {
    if m < n {
      UptoPrefix(read, f, m, n - 1);
    }
  }

  /** Part of a segment behind the queue below it is a prefix of the queue. */
  lemma PartPrefix(read: Contents, f: map<nat, Bytes>, n: nat, part: seq<Entry>, last: nat)
    requires 0 < n <= last && n in f && part <= read(f[n])
    ensures Below(read, f, n) + Tag(n, part) <= Upto(read, f, last)
  {
    assert Tag(n, part) <= Tag(n, read(f[n]));
    assert Upto(read, f, n) == Below(read, f, n) + Tag(n, read(f[n]));
    UptoPrefix(read, f, n, last);
  }

  lemma DecodePrefix(c: Codec, xs: seq<Bytes>, ys: seq<Bytes>)
    requires xs <= ys
    ensures Decode(c, xs) <= Decode(c, ys)
  {
    assert ys == xs + ys[|xs|..];
    DecodeAppend(c, xs, ys[|xs|..]);
  }

  lemma PartialPrefix(c: Codec, scan: Splitter, p: Pass)
    requires Complete(scan) && p.done < |p.list| && p.list[p.done] in p.snap
    ensures Partial(c, scan, p) <= Reader(c)(p.snap[p.list[p.done]])
  {
    var b := p.snap[p.list[p.done]];
    assert scan(b).lines <= Lines(b);
    if p.line <= |scan(b).lines| {
      DecodePrefix(c, scan(b).lines[..p.line], Lines(b));
    }
  }

  /** At no time has a pass handed over anything but a prefix of the listed queue. */
  lemma InOrderPrefix(c: Codec, scan: Splitter, p: Pass, calls: seq<(nat, Entry)>)
    requires Complete(scan) && Sealing(p.list, p.snap, p.active) && InOrder(c, scan, p, calls)
    ensures calls <= Below(Reader(c), p.snap, p.active)
  {
    if p.done < |p.list| {
      assert p.list[p.done] in p.snap.Keys - {p.active};
      PartialPrefix(c, scan, p);
      PassPrefix(Reader(c), p, Partial(c, scan, p));
    }
  }

  lemma PassPrefix(read: Contents, p: Pass, part: seq<Entry>)
    requires Sealing(p.list, p.snap, p.active) && p.done < |p.list|
    requires p.list[p.done] in p.snap && part <= read(p.snap[p.list[p.done]])
    ensures Below(read, p.snap, p.list[p.done]) + Tag(p.list[p.done], part) <= Below(read, p.snap, p.active)
  {
    NoFileBetween(p.snap, p.list, p.active, p.done);
    PartPrefix(read, p.snap, p.list[p.done], part, p.active - 1);
  }

  /** Segment `n` of the pass has a line the scanner gives up on, and all lines in front of it are done. */
  ghost predicate StuckAt(scan: Splitter, p: Pass, n: nat) {
    && p.done < |p.list| && p.list[p.done] == n && n in p.snap
    && scan(p.snap[n]).tooLong && p.line == |scan(p.snap[n]).lines|
  }

  /** The calls are a prefix of the queue `q`; all of it once the pass is through; and if segment `n` has a line too
      long to scan, the queue below `n` and the entries of `n` in front of the line. */
  ghost predicate Recovers(c: Codec, scan: Splitter, p: Pass, calls: seq<(nat, Entry)>, q: seq<(nat, Entry)>) {
    && calls <= q && (p.done == |p.list| ==> calls == q)
    && forall n :: StuckAt(scan, p, n) ==>
         calls == Below(Reader(c), p.snap, n) + Tag(n, Decode(c, scan(p.snap[n]).lines))
  }

  lemma StuckPartial(c: Codec, scan: Splitter, p: Pass, n: nat)
    requires StuckAt(scan, p, n)
    ensures Partial(c, scan, p) == Decode(c, scan(p.snap[n]).lines)
  {
    assert scan(p.snap[n]).lines[..p.line] == scan(p.snap[n]).lines;
  }

  lemma PassRecovers(c: Codec, scan: Splitter, p: Pass, calls: seq<(nat, Entry)>)
    requires Complete(scan) && Sealing(p.list, p.snap, p.active) && InOrder(c, scan, p, calls)
    ensures Recovers(c, scan, p, calls, Below(Reader(c), p.snap, p.active))
  {
    assert calls <= Below(Reader(c), p.snap, p.active) by {
      InOrderPrefix(c, scan, p, calls);
    }
    forall n | StuckAt(scan, p, n)
      ensures calls == Below(Reader(c), p.snap, n) + Tag(n, Decode(c, scan(p.snap[n]).lines))
    {
      StuckPartial(c, scan, p, n);
    }
  }

  // ---------- a log and its sealed part ----------

  lemma BelowIsSealed(read: Contents, w: Wal)
    requires Shape(w)
    ensures Below(read, w.disk, w.name) == SealedIn(read, w)
  {
    if w.name != 0 {
      UptoFrame(read, w.disk, Files(w), w.name - 1);
    }
  }

  /** A restarted log has nothing in its active segment. */
  lemma RestartedSealed(c: Codec, disk: map<nat, Bytes>)
    requires 0 !in disk
    ensures Active(c, Restart(disk)) == [] && Sealed(c, Restart(disk)) == View(c, Restart(disk))
  {
    RestartShape(disk);
    FramedEmpty(c);
    ViewParts(Reader(c), Restart(disk));
  }

  // ---------- after a crash ----------

  /** What a crash at byte `k` of the open segment leaves of the queue. */
  ghost function Survived(c: Codec, w: Wal, k: nat): seq<(nat, Entry)>
    requires Lawful(c) && WalLog.Inv(c, w)
  {
    Sealed(c, w) + Tag(w.name, Active(c, w)[..Kept(c, w, k)])
  }

  lemma CrashSealed(c: Codec, w: Wal, k: nat)
    requires Lawful(c) && WalLog.Inv(c, w)
    ensures WalLog.Inv(c, Crash(w, k)) && Below(Reader(c), Crash(w, k).disk, Crash(w, k).name) == Survived(c, w, k)
  {
    CrashRefines(c, w, k);
    LeftoverRead(c, w, k);
    LeftoverUpto(Reader(c), w, k, Active(c, w)[..Kept(c, w, k)]);
    RestartedSealed(c, Leftover(w, k));
    BelowIsSealed(Reader(c), Crash(w, k));
  }

  /** The process has crashed, started again and begun its first replay pass. */
  ghost function AfterCrash(w: Wal, k: nat, list: seq<nat>): State {
    State.State(Crash(w, k), Some(Begun(Crash(w, k), list)), [])
  }

  lemma AfterCrashInv(c: Codec, scan: Splitter, w: Wal, k: nat, list: seq<nat>)
    requires Lawful(c) && WalLog.Inv(c, w) && Lists(list, Crash(w, k).disk.Keys - {Crash(w, k).name})
    ensures ReplayRuns.Inv(c, scan, AfterCrash(w, k, list))
  {
    CrashSealed(c, w, k);
    BeginPass(c, scan, Crash(w, k), list);
    FreshSegment(c, scan, Begun(Crash(w, k), list));
  }

  /** A pass over the files as the restart found them. */
  ghost predicate FirstPass(w: Wal, r: State) {
    r.pass.Some? && r.pass.value.snap == w.disk && r.pass.value.active == w.name
  }

  /** Crash recovery: after a crash at any byte of the open segment and a restart, a replay pass hands to the callback
      a prefix of the entries whose whole encoding survived, in write order; all of them once it is through; and if
      segment `n` has a line too long to scan, those below `n` and those of `n` in front of the line. Whatever writers
      do meanwhile. */
  lemma {:induction false} CrashRecovery(c: Codec, cfg: Config, scan: Splitter, w: Wal, k: nat, list: seq<nat>,
                                         evs: seq<Event>, r: State)
    requires Lawful(c) && Complete(scan) && WalLog.Inv(c, w) && Lists(list, Crash(w, k).disk.Keys - {Crash(w, k).name})
    requires IsRun(c, cfg, scan, AfterCrash(w, k, list), evs) && r == Run(c, cfg, scan, AfterCrash(w, k, list), evs)
    requires FirstPass(Crash(w, k), r)
    ensures Recovers(c, scan, r.pass.value, r.calls, Survived(c, w, k))
  {
    AfterCrashInv(c, scan, w, k, list);
    RunInv(c, cfg, scan, AfterCrash(w, k, list), evs);
    AcceptedInOrder(c, scan, r.pass.value, r.calls);
    PassRecovers(c, scan, r.pass.value, r.calls);
    CrashSealed(c, w, k);
  }

  /** The same for the scanner the gateway configures. */
  lemma {:induction false} GatewayRecovers(c: Codec, cfg: Config, w: Wal, k: nat, list: seq<nat>, evs: seq<Event>,
                                           r: State)
    requires Lawful(c) && WalLog.Inv(c, w) && Lists(list, Crash(w, k).disk.Keys - {Crash(w, k).name})
    requires var scan := Scanner(WalSizes.ReplayCap(cfg.maxSegment));
      IsRun(c, cfg, scan, AfterCrash(w, k, list), evs) && r == Run(c, cfg, scan, AfterCrash(w, k, list), evs)
    requires FirstPass(Crash(w, k), r)
    ensures Recovers(c, Scanner(WalSizes.ReplayCap(cfg.maxSegment)), r.pass.value, r.calls, Survived(c, w, k))
  {
    ScannerComplete(WalSizes.ReplayCap(cfg.maxSegment));
    CrashRecovery(c, cfg, Scanner(WalSizes.ReplayCap(cfg.maxSegment)), w, k, list, evs, r);
  }
}
