/** The WAL writer as the object it is: fields updated in place, loops over the directory and the buffer.
    Every operation is tied to its value-level counterpart in `WalLog`, and so to the queue. */
module WalWriter {
  import opened Framing
  import opened Codecs
  import opened WalLog
  import opened Replay
  import opened Recovery
  import opened WalSizes

  /** Size of the buffered writer in front of the active file. */
  const BUFFER_SIZE: nat := 65536

  const DEFAULT_SEGMENT: nat := 67108864

  class Writer {
    const codec: Codec
    const cfg: Config
    var disk: map<nat, Bytes>
    var isOpen: bool
    var activeName: nat
    var activeBuf: Bytes
    var activeSize: nat
    var sequence: nat

    ghost function Log(): Wal
      reads this
    {
      Wal(disk, isOpen, activeName, activeBuf, activeSize)
    }

    /** The queue the log stands for. */
    ghost function Entries(): seq<(nat, Entry)>
      reads this
    {
      View(codec, Log())
    }

    ghost predicate Valid()
      reads this
    {
      Inv(codec, Log()) && |activeBuf| <= BUFFER_SIZE
    }

    /** `NewWriter`: open the latest segment of the directory, seal it if it holds anything. */
    constructor (codec: Codec, maxSegmentBytes: int, syncEach: bool, dir: map<nat, Bytes>)
      ensures Log() == Restart(dir) && this.codec == codec
      ensures cfg == Config(if maxSegmentBytes <= 0 then 67108864 else maxSegmentBytes, syncEach)
      ensures 0 !in dir ==> Valid() && View(codec, Log()) == Upto(Reader(codec), dir, MaxNum(dir.Keys))
    {
      this.codec := codec;
      cfg := Config(if maxSegmentBytes <= 0 then DEFAULT_SEGMENT else maxSegmentBytes, syncEach);
      disk, isOpen, activeName, activeBuf, activeSize, sequence := dir, false, 0, [], 0, 0;
      new;
      if 0 !in dir {
        RestartView(codec, dir);
      }
      OpenLatest();
      if isOpen && activeSize > 0 {
        RotateSegment();
      }
    }

    method OpenLatest()
      requires !isOpen && activeName == 0 && activeBuf == [] && activeSize == 0
      modifies this
      ensures disk == old(disk) && sequence == old(sequence)
      ensures var n := MaxNum(disk.Keys);
        Log() == if n == 0 then Wal(disk, false, 0, [], 0) else Wal(disk, true, n, [], |disk[n]|)
    {
      var latestNum := 0;
      var todo := disk.Keys;
      while todo != {}
        invariant todo <= disk.Keys && disk == old(disk) && sequence == old(sequence)
        invariant !isOpen && activeName == 0 && activeBuf == [] && activeSize == 0
        invariant forall n :: n in disk && n !in todo ==> n <= latestNum
        invariant latestNum == 0 || latestNum in disk
        decreases todo
      {
        var n :| n in todo;
        todo := todo - {n};
        if n > latestNum {
          latestNum := n;
        }
      }
      assert latestNum == MaxNum(disk.Keys);
      if latestNum != 0 {
        isOpen, activeName, activeBuf, activeSize := true, latestNum, [], |disk[latestNum]|;
      }
    }

    method NextSegmentNum() returns (n: nat)
      ensures n == MaxNum(disk.Keys) + 1
    {
      var maxNum := 0;
      var todo := disk.Keys;
      while todo != {}
        invariant todo <= disk.Keys
        invariant forall n :: n in disk && n !in todo ==> n <= maxNum
        invariant maxNum == 0 || maxNum in disk
        decreases todo
      {
        var n :| n in todo;
        todo := todo - {n};
        if n > maxNum {
          maxNum := n;
        }
      }
      n := maxNum + 1;
    }

    /** Flush and close the active file, create the next one: an unused number above all others. */
    method RotateSegment()
      requires isOpen ==> activeName in disk
      modifies this
      ensures Log() == Rotate(old(Log())) && sequence == old(sequence)
      ensures activeName !in old(disk) && forall n :: n in old(disk) ==> n < activeName
    {
      ghost var w := Log();
      if isOpen {
        disk := disk[activeName := disk[activeName] + activeBuf];
        isOpen, activeBuf := false, [];
      }
      assert disk == Files(w) && disk.Keys == w.disk.Keys;
      var n := NextSegmentNum();
      disk := disk[n := []];
      isOpen, activeName, activeBuf, activeSize := true, n, [], 0;
    }

    /** The buffered writer: while the rest does not fit, fill the buffer and flush it, or write past an
        empty one. No byte is lost, doubled or reordered. */
    method Append(data: Bytes)
      requires isOpen && activeName in disk && |activeBuf| <= BUFFER_SIZE
      modifies this`disk, this`activeBuf
      ensures activeName in disk && |activeBuf| <= BUFFER_SIZE
      ensures disk == old(disk)[activeName := disk[activeName]]
      ensures disk[activeName] + activeBuf == old(disk[activeName] + activeBuf) + data
      ensures old(disk[activeName]) <= disk[activeName]
    {
      var p := data;
      while |p| > BUFFER_SIZE - |activeBuf|
        invariant activeName in disk && |activeBuf| <= BUFFER_SIZE && |p| <= |data|
        invariant disk == old(disk)[activeName := disk[activeName]]
        invariant disk[activeName] + activeBuf + p == old(disk[activeName] + activeBuf) + data
        invariant old(disk[activeName]) <= disk[activeName]
        decreases |p|, |activeBuf|
      {
        if activeBuf == [] {
          disk := disk[activeName := disk[activeName] + p];
          p := [];
        } else {
          var room := BUFFER_SIZE - |activeBuf|;
          activeBuf, p := activeBuf + p[..room], p[room..];
          disk := disk[activeName := disk[activeName] + activeBuf];
          activeBuf := [];
        }
      }
      activeBuf := activeBuf + p;
    }

    method FlushBuffer()
      requires isOpen && activeName in disk
      modifies this`disk, this`activeBuf
      ensures Log() == Flush(old(Log()), |old(activeBuf)|) && activeBuf == []
    {
      ghost var w0 := Log();
      disk, activeBuf := disk[activeName := disk[activeName] + activeBuf], [];
      FlushedBy(w0, Log(), |w0.buf|);
    }

    /** A record that would outgrow the segment, or finds none open, goes to a new one. */
    method MakeRoom(size: nat)
      requires Shape(Log()) && |activeBuf| <= BUFFER_SIZE
      modifies this
      ensures Log() == Roomy(cfg, old(Log()), size) && Shape(Log()) && isOpen
      ensures sequence == old(sequence) && |activeBuf| <= BUFFER_SIZE
    {
      RotateShape(Log());
      if isOpen && activeSize + size > cfg.maxSegment {
        RotateSegment();
      }
      if !isOpen {
        RotateSegment();
      }
    }

    /** A record into the open segment. `spilt` is how much of the buffer overflowed into the file. */
    method Store(rec: Bytes) returns (ghost spilt: nat)
      requires isOpen && activeName in disk && |activeBuf| <= BUFFER_SIZE
      modifies this
      ensures Log() == Flush(Stored(cfg, old(Log()), rec), spilt) && |activeBuf| <= BUFFER_SIZE
      ensures cfg.flushEach ==> activeBuf == []
      ensures sequence == old(sequence) + 1
    {
      ghost var w2 := Log();
      ghost var w3 := w2.(buf := w2.buf + rec, size := w2.size + |rec|);
      Append(rec);
      activeSize, sequence := activeSize + |rec|, sequence + 1;
      spilt := |disk[activeName]| - |w2.disk[activeName]|;
      assert Log() == Flush(w3, spilt) by {
        assert w2.disk[w2.name] + (w2.buf + rec) == (w2.disk[w2.name] + w2.buf) + rec;
        FlushedBy(w3, Log(), spilt);
      }
      if cfg.flushEach {
        FlushBuffer();
        FlushTwice(w3, spilt);
        spilt := 0;
        NothingFlushed(Log());
      }
    }

    /** One encoded record. */
    method Put(rec: Bytes) returns (ghost spilt: nat)
      requires Shape(Log()) && |activeBuf| <= BUFFER_SIZE
      modifies this
      ensures Log() == Flush(WalLog.Put(cfg, old(Log()), rec), spilt) && |activeBuf| <= BUFFER_SIZE
      ensures cfg.flushEach ==> activeBuf == []
      ensures sequence == old(sequence) + 1
    {
      MakeRoom(|rec|);
      spilt := Store(rec);
    }

    /** `Write`: a refused entry changes nothing; an accepted one is the new last entry of the queue. */
    method Write(e: Entry) returns (ok: bool, ghost spilt: nat)
      requires Valid() && Lawful(codec)
      modifies this
      ensures Valid() && ok == Encodable(codec, e)
      ensures ok ==> Log() == Flush(WalLog.Write(codec, cfg, old(Log()), e), spilt)
      ensures ok ==> View(codec, Log()) == old(View(codec, Log())) + [(activeName, Normal(codec, e))]
      ensures !ok ==> Log() == old(Log())
      ensures sequence == if ok then old(sequence) + 1 else old(sequence)
      ensures ok && cfg.flushEach ==> activeBuf == []
    {
      spilt := 0;
      var data := codec.marshal(e);
      if data.None? {
        return false, 0;
      }
      ghost var w0 := Log();
      spilt := Put(data.value + [NL]);
      Written(codec, cfg, w0, e, spilt);
      ok := true;
    }

    /** A tick of the sync loop. */
    method Sync()
      requires Valid()
      modifies this
      ensures Valid() && Log() == Flush(old(Log()), |old(activeBuf)|) && sequence == old(sequence)
      ensures isOpen ==> activeBuf == [] && disk == Files(Log())
      ensures View(codec, Log()) == old(View(codec, Log()))
    {
      ghost var w0 := Log();
      FlushRefines(codec, w0, |w0.buf|);
      if isOpen {
        FlushBuffer();
        assert disk[activeName] + activeBuf == disk[activeName];
      }
    }

    method CloseWriter()
      requires Valid()
      modifies this
      ensures Valid() && Log() == Close(old(Log())) && sequence == old(sequence)
      ensures disk == old(Files(Log())) && View(codec, Log()) == old(View(codec, Log()))
    {
      CloseRefines(codec, Log());
      if isOpen {
        disk := disk[activeName := disk[activeName] + activeBuf];
        isOpen, activeBuf := false, [];
      }
    }

    /** One replay cycle with nobody else at work: a prefix of the sealed segments, in order, each accepted to its
        end, is gone unless its removal failed; the rest and the active segment are as they were. `calls` is what
        the callback is given: after a whole cycle the sealed part of the queue; otherwise the queue below the
        segment the cycle stopped at, and of that one the part up to the refused call or the overlong line. */
    method ReplaySealedSegments(fn: nat -> nat -> bool, removable: nat -> bool)
      returns (list: seq<nat>, done: nat, calls: seq<(nat, Entry)>)
      requires Valid()
      modifies this`disk
      ensures Valid() && Lists(list, old(disk.Keys) - {activeName}) && done <= |list|
      ensures disk == Left(old(disk), list[..done], removable)
      ensures forall i :: 0 <= i < done ==> Passes(codec, ReplayCap(cfg.maxSegment), old(disk)[list[i]], fn(list[i]))
      ensures done == |list| ==> calls == Sealed(codec, old(Log()))
      ensures done < |list| ==>
        && !Passes(codec, ReplayCap(cfg.maxSegment), old(disk)[list[done]], fn(list[done]))
        && StopsIn(codec, ReplayCap(cfg.maxSegment), old(disk), list[done], fn(list[done]), calls)
    {
      ghost var w, cap := Log(), ReplayCap(cfg.maxSegment);
      var run := RunOver(codec, ReplayCap(cfg.maxSegment), disk, fn);
      disk, list, done, calls := ReplayCycle(run, disk, activeName, removable);
      SealedListing(w, list);
      CycleMeans(codec, cap, w, fn, list, done, calls);
      LeftInv(codec, w, list[..done], removable);
    }
  }

  /** The cycle stopped in segment `n`: the queue below it was handed over, and part of it. */
  ghost predicate StopsIn(c: Codec, cap: nat, disk: map<nat, Bytes>, n: nat, fn: nat -> bool,
                          calls: seq<(nat, Entry)>) {
    n in disk && exists part :: Halts(c, cap, disk[n], fn, part) && calls == Below(Reader(c), disk, n) + Tag(n, part)
  }

  lemma SealedListing(w: Wal, list: seq<nat>)
    requires Shape(w) && Lists(list, w.disk.Keys - {w.name})
    ensures Sealing(list, w.disk, w.name) && w.name !in list
    ensures forall i :: 0 <= i < |list| ==> list[i] in w.disk
  {
    assert forall i :: 0 <= i < |list| ==> list[i] in w.disk.Keys - {w.name};
  }

  lemma CycleMeans(c: Codec, cap: nat, w: Wal, fn: nat -> nat -> bool, list: seq<nat>, done: nat,
                   calls: seq<(nat, Entry)>)
    requires Shape(w) && Sealing(list, w.disk, w.name) && (forall i :: 0 <= i < |list| ==> list[i] in w.disk)
    requires AllPass(RunOver(c, cap, w.disk, fn), list, done)
    requires done < |list| ==>
      !RunOver(c, cap, w.disk, fn)(list[done]).ok && calls == Handed(RunOver(c, cap, w.disk, fn), list, done + 1)
    requires done == |list| ==> calls == Handed(RunOver(c, cap, w.disk, fn), list, done)
    ensures forall i :: 0 <= i < done ==> Passes(c, cap, w.disk[list[i]], fn(list[i]))
    ensures done == |list| ==> calls == Sealed(c, w)
    ensures done < |list| ==>
      && !Passes(c, cap, w.disk[list[done]], fn(list[done]))
      && StopsIn(c, cap, w.disk, list[done], fn(list[done]), calls)
  {
    forall i | 0 <= i < done ensures Passes(c, cap, w.disk[list[i]], fn(list[i])) {
      RunOverMeans(c, cap, w.disk, fn, list[i]);
    }
    CycleHandsQueue(c, cap, w.disk, fn, list, w.name, done);
    BelowIsSealed(Reader(c), w);
    if done < |list| {
      RunOverMeans(c, cap, w.disk, fn, list[done]);
    }
  }

  /** Removing sealed segments keeps the log sound. */
  lemma LeftInv(c: Codec, w: Wal, gone: seq<nat>, removable: nat -> bool)
    requires Inv(c, w) && w.name !in gone
    ensures Inv(c, w.(disk := Left(w.disk, gone, removable)))
  {
    var r := w.(disk := Left(w.disk, gone, removable));
    assert w.name != 0 ==> Files(r)[w.name] == Files(w)[w.name];
  }

  lemma NothingFlushed(w: Wal)
    ensures Flush(w, 0) == w
  {
    if w.open && w.name in w.disk {
      assert w.disk[w.name] + w.buf[..0] == w.disk[w.name];
      assert w.disk[w.name := w.disk[w.name]] == w.disk;
    }
  }

  /** The same bytes with a later cut between file and buffer are a flush. */
  lemma FlushedBy(w: Wal, r: Wal, k: nat)
    requires w.open && w.name in w.disk && r.name in r.disk
    requires r.open && r.name == w.name && r.size == w.size && r.disk == w.disk[w.name := r.disk[w.name]]
    requires r.disk[r.name] + r.buf == w.disk[w.name] + w.buf
    requires |r.disk[r.name]| == |w.disk[w.name]| + k
    ensures r == Flush(w, k)
  {
    var all := w.disk[w.name] + w.buf;
    assert r.disk[r.name] == all[..|w.disk[w.name]| + k] == w.disk[w.name] + w.buf[..k];
    assert r.buf == all[|w.disk[w.name]| + k..] == w.buf[k..];
  }

  lemma FlushTwice(w: Wal, k: nat)
    requires w.open && w.name in w.disk && k <= |w.buf|
    ensures Flush(Flush(w, k), |Flush(w, k).buf|) == Flush(w, |w.buf|)
  {
    var r := Flush(Flush(w, k), |w.buf| - k);
    assert r.disk[r.name] == w.disk[w.name] + w.buf[..k] + w.buf[k..];
    FlushedBy(w, r, |w.buf|);
  }

  /** The segment a record of this size will go to is open. */
  ghost function Roomy(cfg: Config, w: Wal, size: nat): Wal {
    var w1 := if w.open && w.size + size > cfg.maxSegment then Rotate(w) else w;
    if !w1.open then Rotate(w1) else w1
  }

  ghost function Stored(cfg: Config, w: Wal, rec: Bytes): Wal {
    var r := w.(buf := w.buf + rec, size := w.size + |rec|);
    if cfg.flushEach then Flush(r, |r.buf|) else r
  }

  lemma Written(c: Codec, cfg: Config, w: Wal, e: Entry, k: nat)
    requires Lawful(c) && Inv(c, w) && Encodable(c, e)
    ensures var r := Flush(WalLog.Write(c, cfg, w, e), k);
      Inv(c, r) && View(c, r) == View(c, w) + [(r.name, Normal(c, e))]
  {
    WriteRefines(c, cfg, w, e);
    FlushRefines(c, WalLog.Write(c, cfg, w, e), k);
    FlushShape(WalLog.Write(c, cfg, w, e), k);
  }

  // ---------- reading everything back ----------

  /** The entries of segments 0 to `n`: a segment numbered 0 is read like any other, though no writer makes one. */
  function FromZero(read: Contents, files: map<nat, Bytes>, n: nat): seq<(nat, Entry)> {
    Block(read, files, 0) + Upto(read, files, n)
  }

  lemma FromZeroNext(read: Contents, f: map<nat, Bytes>, m: nat, n: nat)
    requires m < n && n in f && forall i :: m < i < n ==> i !in f
    ensures FromZero(read, f, n - 1) == FromZero(read, f, m)
    ensures FromZero(read, f, n) == FromZero(read, f, m) + Tag(n, read(f[n]))
  {
    UptoGap(read, f, m, n - 1);
    var zero, q, r := Block(read, f, 0), Upto(read, f, m), Tag(n, read(f[n]));
    assert zero + (q + r) == (zero + q) + r;
  }

  lemma FromZeroFirst(read: Contents, f: map<nat, Bytes>, n: nat)
    requires n in f && forall i :: 0 <= i < n ==> i !in f
    ensures FromZero(read, f, n) == Tag(n, read(f[n])) && (n != 0 ==> FromZero(read, f, n - 1) == [])
  {
    assert FromZero(read, f, 0) == Block(read, f, 0);
    if n != 0 {
      FromZeroNext(read, f, 0, n);
    }
  }

  /** File `k` of the list exists; no file lies between it and the one listed before, or in front of the first. */
  ghost predicate NextListed(dir: map<nat, Bytes>, list: seq<nat>, k: nat) {
    && k < |list| && list[k] in dir
    && (if k == 0 then forall i :: 0 <= i < list[0] ==> i !in dir
        else list[k - 1] < list[k] && forall i :: list[k - 1] < i < list[k] ==> i !in dir)
  }

  lemma ListsInTurn(dir: map<nat, Bytes>, list: seq<nat>)
    requires Lists(list, dir.Keys)
    ensures forall k :: 0 <= k < |list| ==> NextListed(dir, list, k)
  {
    forall k | 0 <= k < |list| ensures NextListed(dir, list, k) {
      NoneBetween(list, dir.Keys, k);
    }
  }

  /** The log up to a number, as a function. */
  ghost function Prefixes(read: Contents, dir: map<nat, Bytes>): nat -> seq<(nat, Entry)> {
    (n: nat) => FromZero(read, dir, n)
  }

  /** From number `m` to number `n` the log gains the block `b`, and nothing in front of it. */
  ghost predicate Gains(upto: nat -> seq<(nat, Entry)>, m: nat, n: nat, b: seq<(nat, Entry)>) {
    m < n && upto(n) == upto(m) + b && upto(n - 1) == upto(m)
  }

  /** With number `n` the log begins, with the block `b`. */
  ghost predicate Begins(upto: nat -> seq<(nat, Entry)>, n: nat, b: seq<(nat, Entry)>) {
    upto(n) == b && (n != 0 ==> upto(n - 1) == [])
  }

  ghost predicate GainsAt(upto: nat -> seq<(nat, Entry)>, read: Contents, dir: map<nat, Bytes>, list: seq<nat>,
                          k: nat) {
    k < |list| && if k == 0 then Begins(upto, list[0], Block(read, dir, list[0]))
                  else Gains(upto, list[k - 1], list[k], Block(read, dir, list[k]))
  }

  lemma PrefixesGain(read: Contents, dir: map<nat, Bytes>, list: seq<nat>, k: nat)
    requires NextListed(dir, list, k)
    ensures GainsAt(Prefixes(read, dir), read, dir, list, k)
  {
    if k == 0 {
      FromZeroFirst(read, dir, list[0]);
    } else {
      FromZeroNext(read, dir, list[k - 1], list[k]);
    }
  }

  lemma ListedNext(read: Contents, dir: map<nat, Bytes>, list: seq<nat>, k: nat)
    requires k < |list|
    ensures Listed(read, dir, list, k + 1) == Listed(read, dir, list, k) + Block(read, dir, list[k])
    ensures k == 0 ==> Listed(read, dir, list, 1) == Block(read, dir, list[0]) && Listed(read, dir, list, 0) == []
  {
    var b := Block(read, dir, list[k]);
    assert [] + b == b;
  }

  /** Up to and including file `k` of the list, and in front of it. */
  lemma {:induction false} ListedGains(upto: nat -> seq<(nat, Entry)>, read: Contents, dir: map<nat, Bytes>,
                                       list: seq<nat>, k: nat)
    requires k < |list| && forall j :: 0 <= j < |list| ==> GainsAt(upto, read, dir, list, j)
    ensures Listed(read, dir, list, k + 1) == upto(list[k])
    ensures Listed(read, dir, list, k) == if list[k] == 0 then [] else upto(list[k] - 1)
  {
    assert GainsAt(upto, read, dir, list, k);
    ListedNext(read, dir, list, k);
    if k != 0 {
      ListedGains(upto, read, dir, list, k - 1);
      assert Listed(read, dir, list, k) == upto(list[k - 1]);
    }
  }

  lemma ListedFromZero(read: Contents, dir: map<nat, Bytes>, list: seq<nat>, k: nat)
    requires k < |list| && forall j :: 0 <= j < |list| ==> NextListed(dir, list, j)
    ensures Listed(read, dir, list, k + 1) == Prefixes(read, dir)(list[k])
    ensures Listed(read, dir, list, k) == if list[k] == 0 then [] else Prefixes(read, dir)(list[k] - 1)
  {
    forall j | 0 <= j < |list| ensures GainsAt(Prefixes(read, dir), read, dir, list, j) {
      assert NextListed(dir, list, j);
      PrefixesGain(read, dir, list, j);
    }
    ListedGains(Prefixes(read, dir), read, dir, list, k);
  }

  /** What reading a segment yields: its entries, and whether the scanner got to its end. */
  datatype Segment = Segment(entries: seq<Entry>, whole: bool)

  /** `readSegment`: the scanner's limit is 64 MiB whatever the configuration. */
  function Segments(c: Codec): Bytes -> Segment {
    b => Segment(Decode(c, ScanFile(b, ScanCap(HARD_REPLAY_LINE_CAP)).lines),
                 !ScanFile(b, ScanCap(HARD_REPLAY_LINE_CAP)).tooLong)
  }

  /** `es` are the entries in front of line `k`, which has 64 MiB or more. */
  ghost predicate CutAt(c: Codec, b: Bytes, es: seq<Entry>, k: nat) {
    k < |Lines(b)| && |Lines(b)[k]| >= 67108864 && es == Decode(c, Lines(b)[..k])
  }

  lemma ScannedFront(c: Codec, b: Bytes, scan: Scan)
    requires scan == ScanFile(b, 67108864)
    ensures !scan.tooLong <==> forall i :: 0 <= i < |Lines(b)| ==> |Lines(b)[i]| < 67108864
    ensures scan.tooLong ==> CutAt(c, b, Decode(c, scan.lines), |scan.lines|)
  {
    assert scan.lines == Lines(b)[..|scan.lines|];
  }

  method ReadSegment(c: Codec, b: Bytes) returns (r: Segment)
    ensures r == Segments(c)(b) && (r.whole ==> r.entries == Reader(c)(b))
    ensures r.whole <==> forall i :: 0 <= i < |Lines(b)| ==> |Lines(b)[i]| < 67108864
    ensures !r.whole ==> exists k :: CutAt(c, b, r.entries, k)
  {
    var count, ok, es := ReplaySegment(c, ScanCap(HARD_REPLAY_LINE_CAP), b, _ => true);
    r := Segment(es, ok);
    ScannedFront(c, b, ScanFile(b, 67108864));
  }

  /** The entries of the first `k` files of a list. */
  ghost function Joined(seg: Bytes -> Segment, dir: map<nat, Bytes>, list: seq<nat>, k: nat): seq<Entry>
    requires k <= |list| && forall i :: 0 <= i < |list| ==> list[i] in dir
  {
    if k == 0 then [] else Joined(seg, dir, list, k - 1) + seg(dir[list[k - 1]]).entries
  }

  /** Whole segments read as the log has them. */
  ghost predicate Agrees(seg: Bytes -> Segment, read: Contents) {
    forall b :: seg(b).whole ==> seg(b).entries == read(b)
  }

  /** Files read to their end add up to what the log has of them. */
  lemma {:induction false} JoinedIsListed(seg: Bytes -> Segment, read: Contents, dir: map<nat, Bytes>, list: seq<nat>,
                                          k: nat)
    requires Agrees(seg, read) && k <= |list| && forall j :: 0 <= j < |list| ==> list[j] in dir
    requires forall j :: 0 <= j < k ==> seg(dir[list[j]]).whole
    ensures Joined(seg, dir, list, k) == Untag(Listed(read, dir, list, k))
  {
    if k != 0 {
      JoinedIsListed(seg, read, dir, list, k - 1);
      UntagAppend(Listed(read, dir, list, k - 1), list[k - 1], read(dir[list[k - 1]]));
    }
  }

  lemma ListedInFront(read: Contents, dir: map<nat, Bytes>, list: seq<nat>, k: nat)
    requires Lists(list, dir.Keys) && k < |list|
    ensures Listed(read, dir, list, k) == if list[k] == 0 then [] else FromZero(read, dir, list[k] - 1)
  {
    ListsInTurn(dir, list);
    ListedFromZero(read, dir, list, k);
  }

  lemma LastIsMax(list: seq<nat>, nums: set<nat>)
    requires Lists(list, nums)
    ensures MaxNum(nums) == Before(list, |list|)
  {
  }

  lemma ListedWhole(read: Contents, dir: map<nat, Bytes>, list: seq<nat>, last: nat)
    requires (forall j :: 0 <= j < |list| ==> NextListed(dir, list, j)) && last == Before(list, |list|)
    requires list == [] ==> 0 !in dir
    ensures Listed(read, dir, list, |list|) == FromZero(read, dir, last)
  {
    if list == [] {
      assert FromZero(read, dir, 0) == [];
    } else {
      ListedFromZero(read, dir, list, |list| - 1);
    }
  }

  /** `entries` is the log up to segment `n`, the first that cannot be read to its end, and of that one what was
      read. */
  ghost predicate StopsAt(seg: Bytes -> Segment, read: Contents, dir: map<nat, Bytes>, entries: seq<Entry>, n: nat) {
    && n in dir && !seg(dir[n]).whole && (forall m :: m in dir && m < n ==> seg(dir[m]).whole)
    && entries == Untag(if n == 0 then [] else FromZero(read, dir, n - 1)) + seg(dir[n]).entries
  }

  lemma WholeBelow(seg: Bytes -> Segment, dir: map<nat, Bytes>, list: seq<nat>, i: nat)
    requires Lists(list, dir.Keys) && i < |list| && forall j :: 0 <= j < i ==> seg(dir[list[j]]).whole
    ensures forall m :: m in dir && m < list[i] ==> seg(dir[m]).whole
  {
    forall m | m in dir && m < list[i] ensures seg(dir[m]).whole {
      var j :| 0 <= j < |list| && list[j] == m;
    }
  }

  lemma Stopped(seg: Bytes -> Segment, read: Contents, dir: map<nat, Bytes>, list: seq<nat>, i: nat)
    requires Agrees(seg, read) && Lists(list, dir.Keys) && i < |list|
    requires !seg(dir[list[i]]).whole && forall j :: 0 <= j < i ==> seg(dir[list[j]]).whole
    ensures StopsAt(seg, read, dir, Joined(seg, dir, list, i + 1), list[i])
  {
    JoinedIsListed(seg, read, dir, list, i);
    ListedInFront(read, dir, list, i);
    WholeBelow(seg, dir, list, i);
  }

  /** The loop over the sorted files. */
  method ReadSegments(seg: Bytes -> Segment, dir: map<nat, Bytes>, list: seq<nat>)
    returns (entries: seq<Entry>, done: nat)
    requires forall i :: 0 <= i < |list| ==> list[i] in dir
    ensures done <= |list| && forall j :: 0 <= j < done ==> seg(dir[list[j]]).whole
    ensures done < |list| ==> !seg(dir[list[done]]).whole && entries == Joined(seg, dir, list, done + 1)
    ensures done == |list| ==> entries == Joined(seg, dir, list, done)
  {
    entries, done := [], 0;
    while done < |list|
      invariant done <= |list| && entries == Joined(seg, dir, list, done)
      invariant forall j :: 0 <= j < done ==> seg(dir[list[j]]).whole
    {
      var r := seg(dir[list[done]]);
      entries := entries + r.entries;
      if !r.whole {
        return;
      }
      done := done + 1;
    }
  }

  /** `ReadAll`: if every segment can be read to its end, all entries in order; otherwise those up to the first that
      cannot. */
  method ReadAll(seg: Bytes -> Segment, ghost read: Contents, dir: map<nat, Bytes>)
    returns (entries: seq<Entry>, ok: bool)
    requires Agrees(seg, read)
    ensures ok <==> forall n :: n in dir ==> seg(dir[n]).whole
    ensures ok ==> entries == Untag(FromZero(read, dir, MaxNum(dir.Keys)))
    ensures !ok ==> exists n :: StopsAt(seg, read, dir, entries, n)
  {
    var list := ListNumbers(dir.Keys);
    var done;
    entries, done := ReadSegments(seg, dir, list);
    ok := done == |list|;
    if ok {
      JoinedIsListed(seg, read, dir, list, |list|);
      ListsInTurn(dir, list);
      LastIsMax(list, dir.Keys);
      ListedWhole(read, dir, list, MaxNum(dir.Keys));
      forall n | n in dir ensures seg(dir[n]).whole {
        assert n in list;
      }
    } else {
      Stopped(seg, read, dir, list, done);
    }
  }

  /** The codec's segment reader agrees with the log. */
  lemma SegmentsAgree(c: Codec)
    ensures Agrees(Segments(c), Reader(c))
  {
  }

  /** Writing and reading back: after the writer is closed, `ReadAll` on its directory gives the queue. */
  method ReadBack(w: Writer) returns (entries: seq<Entry>, ok: bool)
    requires w.Valid() && !w.isOpen
    ensures ok ==> entries == Untag(View(w.codec, w.Log()))
    ensures ok <==> forall n :: n in w.disk ==> Segments(w.codec)(w.disk[n]).whole
  {
    SegmentsAgree(w.codec);
    MaxIsActive(w.Log());
    entries, ok := ReadAll(Segments(w.codec), Reader(w.codec), w.disk);
  }
}
