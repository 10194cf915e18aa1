/** Segment sizes, and what they mean for the line limit of the replay scanner. */
module WalSizes {
  import opened Framing
  import opened Codecs
  import opened WalLog
  import opened WalRuns

  /** At most one line: no newline except possibly as the last byte. */
  ghost predicate OneLineFile(b: Bytes) {
    forall i :: 0 <= i < |b| - 1 ==> b[i] != NL
  }

  /** Within the segment limit, or a single record. */
  ghost predicate Small(max: nat, b: Bytes) {
    |b| <= max || OneLineFile(b)
  }

  ghost predicate AllSmall(max: nat, files: map<nat, Bytes>) {
    forall n :: n in files ==> Small(max, files[n])
  }

  lemma PutSmall(c: Codec, cfg: Config, w: Wal, e: Entry)
    requires Lawful(c) && Shape(w) && Encodable(c, e) && AllSmall(cfg.maxSegment, Files(w))
    ensures AllSmall(cfg.maxSegment, Files(Put(cfg, w, Record(c, e))))
  {
    var rec := Record(c, e);
    var r := Put(cfg, w, rec);
    PutShape(cfg, w, rec);
    if r.name == w.name {
      assert |Files(w)[w.name] + rec| <= cfg.maxSegment;
    } else {
      assert LawfulAt(c, e);
      assert [] + rec == rec && OneLineFile(rec);
    }
  }

  lemma RestartSmall(max: nat, disk: map<nat, Bytes>)
    requires 0 !in disk && AllSmall(max, disk)
    ensures AllSmall(max, Files(Restart(disk)))
  {
  }

  lemma StepSmall(c: Codec, cfg: Config, w: Wal, ev: Event)
    requires Lawful(c) && Shape(w) && Enabled(w, ev) && AllSmall(cfg.maxSegment, Files(w))
    ensures AllSmall(cfg.maxSegment, Files(Step(c, cfg, w, ev)))
  {
    match ev
    case WriteEntry(e) =>
      if Encodable(c, e) {
        PutSmall(c, cfg, w, e);
      }
    case FlushBuffer(k) => FlushShape(w, k);
    case CloseWriter => CloseShape(w);
    case Reopen => RestartSmall(cfg.maxSegment, w.disk);
    case CrashRestart(k) => RestartSmall(cfg.maxSegment, Leftover(w, k));
    case Delete(n) => RemoveShape(w, n);
  }

  /** In every state of every run each segment fits the limit or holds a single record. */
  lemma {:induction false} RunSmall(c: Codec, cfg: Config, t: Trace, evs: seq<Event>)
    requires Lawful(c) && TraceInv(c, t) && IsRun(c, cfg, t, evs) && AllSmall(cfg.maxSegment, Files(t.w))
    ensures AllSmall(cfg.maxSegment, Files(Run(c, cfg, t, evs).w))
    decreases |evs|
  {
    if evs != [] {
      StepSmall(c, cfg, t.w, evs[0]);
      TraceStepInv(c, cfg, t, evs[0]);
      RunSmall(c, cfg, TraceStep(c, cfg, t, evs[0]), evs[1..]);
    }
  }

  // ---------- readability ----------

  /** The limit of the replay scanner in numbers: the segment limit between 64 KiB and 64 MiB. */
  function ReplayCap(maxSegment: int): (r: nat)
    ensures 65536 <= r <= 67108864
    ensures 0 < maxSegment <= 65536 ==> r == 65536
    ensures 65536 <= maxSegment <= 67108864 ==> r == maxSegment
    ensures maxSegment <= 0 || 67108864 <= maxSegment ==> r == 67108864
  {
    ScanCap(MaxReplayLineBytes(maxSegment))
  }

  /** Every line leaves room for one byte of each other line. */
  lemma {:induction false} LineLengths(b: Bytes, i: nat)
    requires i < |Lines(b)|
    ensures |Lines(b)[i]| + |Lines(b)| <= |b| + 1
    decreases |b|
  {
    var k := IndexNL(b);
    if k < |b| {
      var rest := b[k + 1..];
      LinesCount(rest);
      if i > 0 {
        LineLengths(rest, i - 1);
      }
    }
  }

  lemma {:induction false} LinesCount(b: Bytes)
    ensures |Lines(b)| <= |b|
    decreases |b|
  {
    if b != [] && IndexNL(b) < |b| {
      LinesCount(b[IndexNL(b) + 1..]);
    }
  }

  lemma OneLineFileLines(b: Bytes)
    requires OneLineFile(b)
    ensures |Lines(b)| <= 1
  {
  }

  /** For segment limits up to 64 MiB: replay stops on a too long line exactly when the segment is a single line of at
      least 64 KiB and at least the segment limit. Every segment of two or more lines is readable. */
  lemma {:induction false} TooLongOnlyAlone(max: nat, b: Bytes)
    requires 0 < max <= 67108864 && Small(max, b)
    ensures ScanFile(b, ReplayCap(max)).tooLong
        <==> |Lines(b)| == 1 && |Lines(b)[0]| >= 65536 && |Lines(b)[0]| >= max
    ensures |Lines(b)| != 1 ==> ScanFile(b, ReplayCap(max)).lines == Lines(b)
  {
    var ls := Lines(b);
    if |ls| >= 2 {
      if OneLineFile(b) {
        OneLineFileLines(b);
      }
      forall i | 0 <= i < |ls| ensures |ls[i]| < ReplayCap(max) {
        LineLengths(b, i);
      }
    }
  }

  /** A record written alone is too long to replay exactly when its encoding has at least 64 KiB and reaches the
      segment limit or, if that is not positive or larger, 64 MiB. */
  lemma LoneRecordReadable(c: Codec, max: int, e: Entry)
    requires Lawful(c) && Encodable(c, e)
    ensures var n := |c.marshal(e).value|;
      ScanFile(Record(c, e), ReplayCap(max)).tooLong <==> n >= 65536 && (n >= 67108864 || 0 < max <= n)
  {
    assert LawfulAt(c, e);
    LinesRecord(c.marshal(e).value);
    assert Lines(Record(c, e)) == [c.marshal(e).value];
    assert Lines(Record(c, e))[0] == c.marshal(e).value;
  }
}
