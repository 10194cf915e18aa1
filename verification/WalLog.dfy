/** The segmented write-ahead log as a value: numbered files, one open file, a write buffer.
    It refines a plain queue of entries, through rotation, restart, crash and deletion. */
module WalLog {
  import opened Framing
  import opened Codecs

  /** `flushEach` is a zero `SyncInterval`: every write is flushed at once. */
  datatype Config = Config(maxSegment: nat, flushEach: bool)

  /** `name` is the number in `activeName`, 0 while no segment was ever opened; it outlives `Close`.
      `buf` holds the bytes accepted by the buffered writer that have not reached the file. */
  datatype Wal = Wal(disk: map<nat, Bytes>, open: bool, name: nat, buf: Bytes, size: nat)

  ghost function MaxNum(s: set<nat>): (m: nat)
    ensures s == {} ==> m == 0
    ensures s != {} ==> m in s
    ensures forall n :: n in s ==> n <= m
  {
    if s == {} then 0 else
      var x :| x in s;
      var r := MaxNum(s - {x});
      assert s == (s - {x}) + {x};
      if r < x then x else r
  }

  /** The files with the write buffer counted in: what is on disk once the buffer is flushed. */
  function Files(w: Wal): map<nat, Bytes> {
    if w.open && w.name in w.disk then w.disk[w.name := w.disk[w.name] + w.buf] else w.disk
  }

  // ---------- the writer's operations ----------

  ghost function Rotate(w: Wal): Wal {
    var files := Files(w);
    var n := MaxNum(files.Keys) + 1;
    Wal(files[n := []], true, n, [], 0)
  }

  /** `Write` once the record is encoded. */
  ghost function Put(cfg: Config, w: Wal, rec: Bytes): Wal {
    var w1 := if w.open && w.size + |rec| > cfg.maxSegment then Rotate(w) else w;
    var w2 := if !w1.open then Rotate(w1) else w1;
    var w3 := w2.(buf := w2.buf + rec, size := w2.size + |rec|);
    if cfg.flushEach then Flush(w3, |w3.buf|) else w3
  }

  /** `Write`: a marshalling error leaves everything as it was. */
  ghost function Write(c: Codec, cfg: Config, w: Wal, e: Entry): Wal {
    if Encodable(c, e) then Put(cfg, w, Record(c, e)) else w
  }

  /** Some prefix of the buffer reaches the file: the sync tick, or the 64 KiB buffer spilling over. */
  ghost function Flush(w: Wal, k: nat): Wal {
    if w.open && w.name in w.disk && k <= |w.buf|
    then w.(disk := w.disk[w.name := w.disk[w.name] + w.buf[..k]], buf := w.buf[k..])
    else w
  }

  ghost function Close(w: Wal): Wal {
    Wal(Files(w), false, w.name, [], w.size)
  }

  /** `NewWriter` on an existing directory: open the latest segment, seal it unless it is empty. */
  ghost function Restart(disk: map<nat, Bytes>): Wal {
    var n := MaxNum(disk.Keys);
    if n == 0 || n !in disk then Wal(disk, false, 0, [], 0) else
      var latest := Wal(disk, true, n, [], |disk[n]|);
      if latest.size > 0 then Rotate(latest) else latest
  }

  /** What a crash leaves: of the open segment any byte prefix; sealed segments were synced. */
  function Leftover(w: Wal, k: nat): map<nat, Bytes> {
    var files := Files(w);
    if w.open && w.name in files && k <= |files[w.name]|
    then files[w.name := files[w.name][..k]] else files
  }

  /** The process dies and starts again. */
  ghost function Crash(w: Wal, k: nat): Wal {
    Restart(Leftover(w, k))
  }

  ghost function Remove(w: Wal, n: nat): Wal {
    w.(disk := w.disk - {n})
  }

  // ---------- invariant ----------

  /** The active segment has the highest number on disk, and the size counter is the length of its
      contents, buffer included. */
  ghost predicate Shape(w: Wal) {
    && 0 !in w.disk
    && (w.name != 0 ==> w.name in w.disk)
    && (forall n :: n in w.disk ==> n <= w.name)
    && (w.open ==> w.name != 0 && w.size == |w.disk[w.name]| + |w.buf|)
    && (!w.open ==> w.buf == [])
  }

  /** A file that is exactly a sequence of records. */
  ghost predicate Framed(c: Codec, b: Bytes) {
    AllEncodable(c, Entries(c, b)) && Frame(c, Entries(c, b)) == b
  }

  ghost predicate Inv(c: Codec, w: Wal) {
    Shape(w) && (w.name != 0 ==> Framed(c, Files(w)[w.name]))
  }

  lemma MaxIsActive(w: Wal)
    requires Shape(w)
    ensures MaxNum(w.disk.Keys) == MaxNum(Files(w).Keys) == w.name
  {
    assert Files(w).Keys == w.disk.Keys;
    if w.name == 0 {
      assert w.disk.Keys == {};
    }
  }

  lemma RotateShape(w: Wal)
    requires Shape(w)
    ensures Shape(Rotate(w)) && Rotate(w).open
    ensures Rotate(w).name == w.name + 1 && Rotate(w).name !in w.disk
    ensures Rotate(w).disk == Files(Rotate(w)) == Files(w)[w.name + 1 := []]
  {
    MaxIsActive(w);
    var r := Rotate(w);
    assert r.disk[r.name] + r.buf == [];
  }

  lemma AppendShape(w: Wal, rec: Bytes)
    requires Shape(w) && w.open
    ensures var r := w.(buf := w.buf + rec, size := w.size + |rec|);
      Shape(r) && Files(r) == Files(w)[w.name := Files(w)[w.name] + rec]
  {
    assert w.disk[w.name] + (w.buf + rec) == (w.disk[w.name] + w.buf) + rec;
  }

  lemma FlushShape(w: Wal, k: nat)
    requires Shape(w)
    ensures Shape(Flush(w, k)) && Files(Flush(w, k)) == Files(w)
    ensures Flush(w, k).name == w.name && Flush(w, k).open == w.open && Flush(w, k).size == w.size
  {
    if w.open && k <= |w.buf| {
      assert (w.disk[w.name] + w.buf[..k]) + w.buf[k..] == w.disk[w.name] + w.buf;
    }
  }

  /** A write extends the contents of the segment that is active afterwards by one record: the old one exactly if
      it is open and the record fits, otherwise a new one numbered above all others. */
  lemma PutShape(cfg: Config, w: Wal, rec: Bytes)
    requires Shape(w)
    ensures var r := Put(cfg, w, rec);
      && Shape(r) && r.open
      && (r.name == w.name || r.name == w.name + 1)
      && (r.name == w.name <==> w.open && w.size + |rec| <= cfg.maxSegment)
      && Files(r) == Files(w)[r.name := (if r.name == w.name then Files(w)[w.name] else []) + rec]
      && (cfg.flushEach ==> r.disk == Files(r))
  {
    RotateShape(w);
    var w1 := if w.open && w.size + |rec| > cfg.maxSegment then Rotate(w) else w;
    var w2 := if !w1.open then Rotate(w1) else w1;
    assert Shape(w2) && w2.open;
    AppendShape(w2, rec);
    var w3 := w2.(buf := w2.buf + rec, size := w2.size + |rec|);
    FlushShape(w3, |w3.buf|);
    var r := Put(cfg, w, rec);
    if cfg.flushEach {
      assert r.buf == [];
      assert r.disk[r.name] + r.buf == r.disk[r.name];
    }
  }

  lemma CloseShape(w: Wal)
    requires Shape(w)
    ensures Shape(Close(w)) && Files(Close(w)) == Close(w).disk == Files(w) && Close(w).name == w.name
  {
  }

  /** A restart on any directory whose numbers start at 1: a new segment exactly if the latest holds anything. */
  lemma RestartShape(disk: map<nat, Bytes>)
    requires 0 !in disk
    ensures var r := Restart(disk); var n := MaxNum(disk.Keys);
      && Shape(r)
      && ((r.name == n && (n in disk ==> disk[n] == []) && Files(r) == disk)
          || (r.name == n + 1 && n in disk && disk[n] != [] && Files(r) == r.disk == disk[r.name := []]))
  {
    var n := MaxNum(disk.Keys);
    if n != 0 {
      var latest := Wal(disk, true, n, [], |disk[n]|);
      assert Files(latest) == disk by { assert disk[n] + [] == disk[n]; }
      RotateShape(latest);
    } else {
      assert disk.Keys == {};
    }
  }

  lemma RemoveShape(w: Wal, n: nat)
    requires Shape(w) && n != w.name
    ensures Shape(Remove(w, n)) && Files(Remove(w, n)) == Files(w) - {n}
  {
  }

  // ---------- the queue a log stands for ----------

  /** A file reader: the entries found in a file. Kept abstract here; see `Reader`. */
  type Contents = Bytes -> seq<Entry>

  function Reader(c: Codec): Contents {
    b => Entries(c, b)
  }

  function Tag(n: nat, es: seq<Entry>): (r: seq<(nat, Entry)>)
    ensures |r| == |es| && forall i :: 0 <= i < |es| ==> r[i] == (n, es[i])
  {
    seq(|es|, i requires 0 <= i < |es| => (n, es[i]))
  }

  function Block(read: Contents, files: map<nat, Bytes>, n: nat): seq<(nat, Entry)> {
    if n in files then Tag(n, read(files[n])) else []
  }

  /** The entries of segments 1 to `n`, in order, each with its segment number. */
  function Upto(read: Contents, files: map<nat, Bytes>, n: nat): seq<(nat, Entry)> {
    if n == 0 then [] else Upto(read, files, n - 1) + Block(read, files, n)
  }

  /** Equal blocks give equal contents. */
  lemma {:induction false} UptoFrame(read: Contents, f: map<nat, Bytes>, g: map<nat, Bytes>, n: nat)
    requires forall i :: 1 <= i <= n ==> Block(read, f, i) == Block(read, g, i)
    ensures Upto(read, f, n) == Upto(read, g, n)
  {
    if n != 0 {
      UptoFrame(read, f, g, n - 1);
    }
  }

  function Without(q: seq<(nat, Entry)>, n: nat): (r: seq<(nat, Entry)>)
    ensures |r| <= |q|
  {
    if q == [] then [] else
      (if q[0].0 == n then [] else [q[0]]) + Without(q[1..], n)
  }

  lemma {:induction false} WithoutAppend(p: seq<(nat, Entry)>, q: seq<(nat, Entry)>, n: nat)
    ensures Without(p + q, n) == Without(p, n) + Without(q, n)
  {
    if p == [] {
      assert p + q == q;
    } else {
      assert (p + q)[1..] == p[1..] + q;
      WithoutAppend(p[1..], q, n);
    }
  }

  lemma {:induction false} WithoutTag(m: nat, es: seq<Entry>, n: nat)
    ensures Without(Tag(m, es), n) == if m == n then [] else Tag(m, es)
  {
    if es != [] {
      assert Tag(m, es)[1..] == Tag(m, es[1..]);
      WithoutTag(m, es[1..], n);
      assert Tag(m, es) == [(m, es[0])] + Tag(m, es[1..]);
    }
  }

  lemma {:induction false} UptoRemove(read: Contents, f: map<nat, Bytes>, m: nat, n: nat)
    ensures Upto(read, f - {m}, n) == Without(Upto(read, f, n), m)
  {
    if n != 0 {
      UptoRemove(read, f, m, n - 1);
      WithoutAppend(Upto(read, f, n - 1), Block(read, f, n), m);
      if n in f {
        WithoutTag(n, read(f[n]), m);
      }
    }
  }

  /** A new or extended last segment, seen through a reader. */
  lemma UptoExtend(read: Contents, f: map<nat, Bytes>, n: nat, m: nat, b: Bytes, had: seq<Entry>, more: seq<Entry>)
    requires m == n || m == n + 1
    requires m != 0 && (forall i :: i in f ==> i <= n)
    requires had == if m in f then read(f[m]) else []
    requires read(b) == had + more
    ensures Upto(read, f[m := b], m) == Upto(read, f, n) + Tag(m, more)
  {
    var g := f[m := b];
    forall i | 1 <= i <= m - 1 ensures Block(read, f, i) == Block(read, g, i) {
      assert i in f <==> i in g;
    }
    UptoFrame(read, f, g, m - 1);
    TagAppend(m, had, more);
    calc {
      Upto(read, g, m);
      Upto(read, f, m - 1) + Tag(m, had + more);
      Upto(read, f, m - 1) + (Tag(m, had) + Tag(m, more));
      (Upto(read, f, m - 1) + Tag(m, had)) + Tag(m, more);
      { assert Block(read, f, m) == Tag(m, had); assert m == n + 1 ==> Tag(m, had) == []; }
      Upto(read, f, n) + Tag(m, more);
    }
  }

  lemma TagAppend(m: nat, xs: seq<Entry>, ys: seq<Entry>)
    ensures Tag(m, xs + ys) == Tag(m, xs) + Tag(m, ys)
  {
  }

  function Untag(q: seq<(nat, Entry)>): (r: seq<Entry>)
    ensures |r| == |q| && forall i :: 0 <= i < |q| ==> r[i] == q[i].1
  {
    seq(|q|, i requires 0 <= i < |q| => q[i].1)
  }

  lemma UntagAppend(p: seq<(nat, Entry)>, n: nat, es: seq<Entry>)
    ensures Untag(p + Tag(n, es)) == Untag(p) + es
  {
  }

  function View(c: Codec, w: Wal): seq<(nat, Entry)> {
    Upto(Reader(c), Files(w), w.name)
  }

  // ---------- each operation against the queue ----------

  lemma FramedEmpty(c: Codec)
    ensures Framed(c, []) && Reader(c)([]) == []
  {
  }

  lemma FramedPush(c: Codec, b: Bytes, e: Entry)
    requires Lawful(c) && Framed(c, b) && Encodable(c, e)
    ensures Framed(c, b + Record(c, e))
    ensures Reader(c)(b + Record(c, e)) == Reader(c)(b) + [Normal(c, e)]
  {
    var es := Entries(c, b);
    assert LawfulAt(c, e);
    FrameTerminated(c, es);
    EntriesAppend(c, b, Record(c, e));
    RecordEntries(c, e);
    FramePush(c, es, Normal(c, e));
  }

  /** A write appends exactly one entry to the queue, in the active segment, whatever rotations it takes. */
  lemma WriteRefines(c: Codec, cfg: Config, w: Wal, e: Entry)
    requires Lawful(c) && Inv(c, w) && Encodable(c, e)
    ensures var r := Write(c, cfg, w, e);
      && Inv(c, r) && r.open && w.name <= r.name <= w.name + 1
      && View(c, r) == View(c, w) + [(r.name, Normal(c, e))]
  {
    var rec := Record(c, e);
    var r := Put(cfg, w, rec);
    PutShape(cfg, w, rec);
    FramedEmpty(c);
    var before := if r.name == w.name then Files(w)[w.name] else [];
    FramedPush(c, before, e);
    UptoExtend(Reader(c), Files(w), w.name, r.name, before + rec, Reader(c)(before), [Normal(c, e)]);
    assert Tag(r.name, [Normal(c, e)]) == [(r.name, Normal(c, e))];
  }

  lemma FlushRefines(c: Codec, w: Wal, k: nat)
    requires Inv(c, w)
    ensures Inv(c, Flush(w, k)) && View(c, Flush(w, k)) == View(c, w)
  {
    FlushShape(w, k);
  }

  lemma CloseRefines(c: Codec, w: Wal)
    requires Inv(c, w)
    ensures Inv(c, Close(w)) && View(c, Close(w)) == View(c, w)
  {
  }

  lemma RestartView(c: Codec, disk: map<nat, Bytes>)
    requires 0 !in disk
    ensures Inv(c, Restart(disk))
    ensures View(c, Restart(disk)) == Upto(Reader(c), disk, MaxNum(disk.Keys))
  {
    RestartShape(disk);
    FramedEmpty(c);
    var r := Restart(disk);
    var n := MaxNum(disk.Keys);
    if r.name == n + 1 {
      UptoExtend(Reader(c), disk, n, r.name, [], [], []);
    }
  }

  /** A clean restart is invisible. */
  lemma ReopenRefines(c: Codec, w: Wal)
    requires Inv(c, w) && !w.open
    ensures Inv(c, Restart(w.disk)) && View(c, Restart(w.disk)) == View(c, w)
    ensures w.name <= Restart(w.disk).name <= w.name + 1
  {
    RestartView(c, w.disk);
    RestartShape(w.disk);
    MaxIsActive(w);
  }

  /** The entries of the active segment, and those before it. */
  function ActiveIn(read: Contents, w: Wal): seq<Entry> {
    if w.name in Files(w) then read(Files(w)[w.name]) else []
  }

  function SealedIn(read: Contents, w: Wal): seq<(nat, Entry)> {
    if w.name == 0 then [] else Upto(read, Files(w), w.name - 1)
  }

  function Active(c: Codec, w: Wal): seq<Entry> {
    ActiveIn(Reader(c), w)
  }

  function Sealed(c: Codec, w: Wal): seq<(nat, Entry)> {
    SealedIn(Reader(c), w)
  }

  lemma ViewParts(read: Contents, w: Wal)
    requires Shape(w)
    ensures Upto(read, Files(w), w.name) == SealedIn(read, w) + Tag(w.name, ActiveIn(read, w))
  {
  }

  lemma ActiveFramed(c: Codec, w: Wal)
    requires Lawful(c) && Inv(c, w)
    ensures AllEncodable(c, Active(c, w))
    ensures w.name != 0 ==> Frame(c, Active(c, w)) == Files(w)[w.name]
    ensures forall i :: 0 <= i < |Active(c, w)| ==> Normal(c, Active(c, w)[i]) == Active(c, w)[i]
  {
    var es := Active(c, w);
    if w.name != 0 {
      FrameEntries(c, es);
      forall i | 0 <= i < |es| ensures Normal(c, es[i]) == es[i] {
        assert Normals(c, es)[i] == Normal(c, es[i]);
      }
    }
  }

  /** How many entries of the open segment a crash at byte `k` of it leaves. */
  ghost function Kept(c: Codec, w: Wal, k: nat): (n: nat)
    requires Lawful(c) && Inv(c, w)
    ensures n <= |Active(c, w)|
  {
    ActiveFramed(c, w);
    if w.open && k <= |Files(w)[w.name]| then Survivors(c, Active(c, w), k) else |Active(c, w)|
  }

  /** What is read back from the torn segment. */
  lemma TornActive(c: Codec, w: Wal, k: nat)
    requires Lawful(c) && Inv(c, w) && w.open && k <= |Files(w)[w.name]|
    ensures Reader(c)(Files(w)[w.name][..k]) == Active(c, w)[..Kept(c, w, k)]
  {
    var es := Active(c, w);
    ActiveFramed(c, w);
    TornFrame(c, es, k);
    assert Normals(c, es[..Kept(c, w, k)]) == es[..Kept(c, w, k)];
  }

  lemma UptoLast(read: Contents, f: map<nat, Bytes>, n: nat, b: Bytes)
    requires n != 0
    ensures Upto(read, f[n := b], n) == Upto(read, f, n - 1) + Tag(n, read(b))
  {
    UptoFrame(read, f, f[n := b], n - 1);
  }

  lemma LeftoverUpto(read: Contents, w: Wal, k: nat, kept: seq<Entry>)
    requires Shape(w)
    requires kept == if w.name in Leftover(w, k) then read(Leftover(w, k)[w.name]) else []
    ensures 0 !in Leftover(w, k) && MaxNum(Leftover(w, k).Keys) == w.name
    ensures Upto(read, Leftover(w, k), w.name)
         == (if w.name == 0 then [] else Upto(read, Files(w), w.name - 1)) + Tag(w.name, kept)
  {
    MaxIsActive(w);
    var left := Leftover(w, k);
    assert left.Keys == Files(w).Keys;
    if w.name != 0 {
      assert left == Files(w)[w.name := left[w.name]];
      UptoLast(read, Files(w), w.name, left[w.name]);
    }
  }

  lemma LeftoverRead(c: Codec, w: Wal, k: nat)
    requires Lawful(c) && Inv(c, w)
    ensures Active(c, w)[..Kept(c, w, k)]
         == if w.name in Leftover(w, k) then Reader(c)(Leftover(w, k)[w.name]) else []
  {
    if w.open && k <= |Files(w)[w.name]| {
      TornActive(c, w, k);
    } else {
      assert Active(c, w)[..Kept(c, w, k)] == Active(c, w);
    }
  }

  /** Crash recovery: all sealed entries, then exactly those entries of the torn segment whose whole
      encoding survived, in write order. */
  lemma CrashRefines(c: Codec, w: Wal, k: nat)
    requires Lawful(c) && Inv(c, w)
    ensures Inv(c, Crash(w, k)) && w.name <= Crash(w, k).name <= w.name + 1
    ensures View(c, Crash(w, k)) == Sealed(c, w) + Tag(w.name, Active(c, w)[..Kept(c, w, k)])
  {
    LeftoverRead(c, w, k);
    LeftoverUpto(Reader(c), w, k, Active(c, w)[..Kept(c, w, k)]);
    RestartView(c, Leftover(w, k));
    RestartShape(Leftover(w, k));
  }

  /** Of a log with an empty buffer a crash that keeps what reached the file tears nothing. */
  lemma SyncedSurvives(c: Codec, w: Wal, k: nat)
    requires Lawful(c) && Inv(c, w) && w.buf == [] && (w.open ==> |w.disk[w.name]| <= k)
    ensures Kept(c, w, k) == |Active(c, w)| && View(c, Crash(w, k)) == View(c, w)
  {
    var es := Active(c, w);
    if w.open {
      assert w.disk[w.name] + [] == w.disk[w.name];
      ActiveFramed(c, w);
      SurvivorsOfAll(c, es);
    }
    CrashRefines(c, w, k);
    assert es[..|es|] == es;
    ViewParts(Reader(c), w);
  }

  /** A torn tail neither merges with nor hides what is written after the crash. */
  lemma {:induction false} TornTailStaysApart(c: Codec, cfg: Config, w: Wal, k: nat, e: Entry)
    requires Lawful(c) && Inv(c, w) && Encodable(c, e)
    ensures var r := Write(c, cfg, Crash(w, k), e);
      View(c, r) == Sealed(c, w) + Tag(w.name, Active(c, w)[..Kept(c, w, k)]) + [(r.name, Normal(c, e))]
  {
    CrashRefines(c, w, k);
    WriteRefines(c, cfg, Crash(w, k), e);
  }

  /** Deleting a sealed segment removes exactly its block of the queue. */
  lemma RemoveRefines(c: Codec, w: Wal, n: nat)
    requires Inv(c, w) && n != w.name
    ensures Inv(c, Remove(w, n)) && View(c, Remove(w, n)) == Without(View(c, w), n)
  {
    RemoveShape(w, n);
    UptoRemove(Reader(c), Files(w), n, w.name);
  }
}
