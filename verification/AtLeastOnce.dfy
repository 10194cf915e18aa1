/** At-least-once delivery, per sink, over every run. For one project `q` and one of its pools `p`,
    everything is counted by the envelope a sink sees. */
module AtLeastOnce {
  import opened Bags
  import opened Framing
  import opened Codecs
  import opened Messages
  import opened WalLog
  import opened Engine
  import P = Pools
  import R = ReplayRuns
  import WalRuns

  /** Pool `p` is one of the pools of project `q`. */
  predicate Routed(g: Setup, q: string, p: nat) {
    q != "" && q in g.fan && p in g.fan[q]
  }

  /** A message of project `q` counts as its envelope, any other as nothing. */
  ghost function Counts(c: Codec, q: string, m: Message): multiset<Envelope> {
    if m.project == q then multiset{WireOf(c, m)} else multiset{}
  }

  ghost function ByMessage(c: Codec, q: string): Message -> multiset<Envelope> {
    (m: Message) => Counts(c, q, m)
  }

  ghost function ByHandle(c: Codec, q: string): Handle -> multiset<Envelope> {
    (h: Handle) => Counts(c, q, h.msg)
  }

  ghost function ByEntry(c: Codec, q: string): Entry -> multiset<Envelope> {
    (e: Entry) => Counts(c, q, FromEntry(e))
  }

  ghost function ByTag(c: Codec, q: string): ((nat, Entry)) -> multiset<Envelope> {
    (x: (nat, Entry)) => Counts(c, q, FromEntry(x.1))
  }

  /** A dispatch counts once pool `p` has taken its copy. */
  ghost function ByThread(g: Setup, q: string, p: nat): Thread -> multiset<Envelope> {
    (t: Thread) => Past(g, q, p, t)
  }

  ghost function Past(g: Setup, q: string, p: nat, t: Thread): multiset<Envelope> {
    if t.Running? && t.k <= |FanOf(g, t.h.msg)| && p in FanOf(g, t.h.msg)[..t.k]
    then Counts(g.codec, q, t.h.msg) else multiset{}
  }

  // ---------- the log, counted ----------

  ghost function InLog(c: Codec, q: string, w: Wal): multiset<Envelope> {
    Sum(View(c, w), ByTag(c, q))
  }

  lemma {:induction false} SumTag(c: Codec, q: string, n: nat, es: seq<Entry>)
    ensures Sum(Tag(n, es), ByTag(c, q)) == Sum(es, ByEntry(c, q))
  {
    if es != [] {
      assert Tag(n, es)[1..] == Tag(n, es[1..]);
      SumTag(c, q, n, es[1..]);
    }
  }

  /** A write adds exactly the message it was given. */
  lemma LogWrite(c: Codec, cfg: WalLog.Config, q: string, w: Wal, m: Message)
    requires Lawful(c) && WalLog.Inv(c, w) && Encodable(c, EntryOf(m))
    ensures WalLog.Inv(c, Write(c, cfg, w, EntryOf(m)))
    ensures InLog(c, q, Write(c, cfg, w, EntryOf(m))) == InLog(c, q, w) + Counts(c, q, m)
  {
    var e := EntryOf(m);
    WriteRefines(c, cfg, w, e);
    WireOfNormal(c, m);
    SumPush(View(c, w), (Write(c, cfg, w, e).name, Normal(c, e)), ByTag(c, q));
  }

  /** The log counted segment by segment: `tally(n)` is the count of segment `n`. */
  ghost function Tallied(tally: nat -> multiset<Envelope>, n: nat): multiset<Envelope> {
    if n == 0 then multiset{} else Tallied(tally, n - 1) + tally(n)
  }

  ghost function Tally(k: ((nat, Entry)) -> multiset<Envelope>, read: Contents,
                       f: map<nat, Bytes>): nat -> multiset<Envelope> {
    (n: nat) => Sum(Block(read, f, n), k)
  }

  lemma {:induction false} UptoTallied(k: ((nat, Entry)) -> multiset<Envelope>, read: Contents, f: map<nat, Bytes>,
                                       n: nat)
    ensures Sum(Upto(read, f, n), k) == Tallied(Tally(k, read, f), n)
  {
    if n != 0 {
      UptoTallied(k, read, f, n - 1);
      SumAppend(Upto(read, f, n - 1), Block(read, f, n), k);
    }
  }

  lemma {:induction false} TalliedSame(a: nat -> multiset<Envelope>, b: nat -> multiset<Envelope>, n: nat)
    requires forall i :: 1 <= i <= n ==> a(i) == b(i)
    ensures Tallied(a, n) == Tallied(b, n)
  {
    if n != 0 {
      TalliedSame(a, b, n - 1);
    }
  }

  /** Emptying one segment takes out exactly its count. */
  lemma {:induction false} TalliedWithout(a: nat -> multiset<Envelope>, b: nat -> multiset<Envelope>, m: nat, n: nat)
    requires 1 <= m <= n && b(m) == multiset{} && forall i :: 1 <= i <= n && i != m ==> a(i) == b(i)
    ensures Tallied(a, n) == Tallied(b, n) + a(m)
  {
    if m == n {
      TalliedSame(a, b, n - 1);
    } else {
      TalliedWithout(a, b, m, n - 1);
    }
  }

  lemma TallyWithout(k: ((nat, Entry)) -> multiset<Envelope>, read: Contents, f: map<nat, Bytes>, m: nat)
    ensures Tally(k, read, f - {m})(m) == multiset{}
    ensures forall i :: i != m ==> Tally(k, read, f - {m})(i) == Tally(k, read, f)(i)
  {
  }

  /** Removing segment `n`, through any reader. */
  lemma RemoveCounted(k: ((nat, Entry)) -> multiset<Envelope>, read: Contents, f: map<nat, Bytes>, n: nat, last: nat)
    requires 1 <= n <= last && n in f
    ensures Sum(Upto(read, f, last), k) == Sum(Upto(read, f - {n}, last), k) + Sum(Tag(n, read(f[n])), k)
  {
    var g := f - {n};
    UptoTallied(k, read, f, last);
    UptoTallied(k, read, g, last);
    TallyWithout(k, read, f, n);
    TalliedWithout(Tally(k, read, f), Tally(k, read, g), n, last);
    assert Tally(k, read, f)(n) == Sum(Tag(n, read(f[n])), k);
  }

  lemma LogRemove(c: Codec, q: string, w: Wal, n: nat)
    requires Lawful(c) && WalLog.Inv(c, w) && n in w.disk && n != w.name
    ensures WalLog.Inv(c, Remove(w, n))
    ensures InLog(c, q, w) == InLog(c, q, Remove(w, n)) + Sum(Entries(c, w.disk[n]), ByEntry(c, q))
  {
    var es := Entries(c, w.disk[n]);
    assert Files(Remove(w, n)) == Files(w) - {n} by {
      RemoveShape(w, n);
    }
    assert WalLog.Inv(c, Remove(w, n)) by {
      RemoveRefines(c, w, n);
    }
    RemoveCounted(ByTag(c, q), Reader(c), Files(w), n, w.name);
    SumTag(c, q, n, es);
  }

  lemma LogCrash(c: Codec, q: string, w: Wal, k: nat)
    requires Lawful(c) && WalLog.Inv(c, w)
    ensures WalLog.Inv(c, Crash(w, k))
    ensures InLog(c, q, w)
         == InLog(c, q, Crash(w, k)) + Sum(Active(c, w)[Kept(c, w, k)..], ByEntry(c, q))
  {
    CrashRefines(c, w, k);
    ViewParts(Reader(c), w);
    CutSum(c, q, Sealed(c, w), w.name, Active(c, w), Kept(c, w, k));
  }

  lemma CutSum(c: Codec, q: string, before: seq<(nat, Entry)>, n: nat, es: seq<Entry>, m: nat)
    requires m <= |es|
    ensures Sum(before + Tag(n, es), ByTag(c, q))
         == Sum(before + Tag(n, es[..m]), ByTag(c, q)) + Sum(es[m..], ByEntry(c, q))
  {
    var k := ByTag(c, q);
    assert es == es[..m] + es[m..];
    TagAppend(n, es[..m], es[m..]);
    SumAppend(before, Tag(n, es), k);
    SumAppend(before, Tag(n, es[..m]), k);
    SumAppend(Tag(n, es[..m]), Tag(n, es[m..]), k);
    SumTag(c, q, n, es[m..]);
  }

  // ---------- the invariant ----------

  ghost predicate LogInv(g: Setup, w: Wal, pass: Option<R.Pass>) {
    WalLog.Inv(g.codec, w) && (pass.Some? ==> R.PassInv(g.scan, w, pass.value))
  }

  /** The callback under way is at the line the pass is at. */
  ghost predicate CallInv(g: Setup, pass: Option<R.Pass>, call: Option<Call>) {
    call.Some? ==>
      && pass.Some? && pass.value.done < |pass.value.list| && pass.value.list[pass.value.done] in pass.value.snap
      && pass.value.line < |g.scan(pass.value.snap[pass.value.list[pass.value.done]]).lines|
      && (var d := DecodeLine(g.codec,
                              g.scan(pass.value.snap[pass.value.list[pass.value.done]]).lines[pass.value.line]);
          d.Some? && FromEntry(d.value) == call.value.h.msg)
  }

  /** Copies pool `p` owes its existence to the current segment: of the lines done, and of the callback
      under way if it has passed `p`. */
  ghost function Replayed(g: Setup, q: string, pass: Option<R.Pass>): multiset<Envelope> {
    if pass.Some? then Sum(R.Partial(g.codec, g.scan, pass.value), ByEntry(g.codec, q)) else multiset{}
  }

  ghost function Calling(g: Setup, q: string, p: nat, call: Option<Call>): multiset<Envelope> {
    if call.Some? then Past(g, q, p, Running(call.value.h, call.value.k)) else multiset{}
  }

  /** What pool `p` spilled is in the log, or was deleted from it, or torn from it by a crash. */
  ghost predicate SpillInv(g: Setup, q: string, spilled: seq<Handle>, w: Wal, deleted: seq<Entry>, torn: seq<Entry>) {
    Sum(spilled, ByHandle(g.codec, q))
      <= InLog(g.codec, q, w) + Sum(deleted, ByEntry(g.codec, q)) + Sum(torn, ByEntry(g.codec, q))
  }

  /** What was deleted, and what is being replayed, pool `p` took through `SubmitStrict`. */
  ghost predicate ReplayInv(g: Setup, q: string, p: nat, deleted: seq<Entry>, pass: Option<R.Pass>, call: Option<Call>,
                            strict: seq<Handle>) {
    Sum(deleted, ByEntry(g.codec, q)) + Replayed(g, q, pass) + Calling(g, q, p, call)
      <= Sum(strict, ByHandle(g.codec, q))
  }

  /** Every dispatch that returned nil, and every one under way that has passed `p`, was taken by `p`. */
  ghost predicate AckInv(g: Setup, q: string, p: nat, acked: seq<Message>, threads: seq<Thread>, taken: seq<Handle>) {
    Sum(acked, ByMessage(g.codec, q)) + Sum(threads, ByThread(g, q, p)) <= Sum(taken, ByHandle(g.codec, q))
  }

  ghost predicate Inv(g: Setup, s: State, q: string, p: nat) {
    && Proper(g) && |s.pools| == |g.pools| && p < |s.pools| && Routed(g, q, p)
    && LogInv(g, s.w, s.pass) && CallInv(g, s.pass, s.call)
    && P.Conserved(s.pools[p], ByHandle(g.codec, q))
    && SpillInv(g, q, s.pools[p].spilled, s.w, s.deleted, s.torn)
    && ReplayInv(g, q, p, s.deleted, s.pass, s.call, s.pools[p].strict)
    && AckInv(g, q, p, s.acked, s.threads, s.pools[p].taken)
  }

  /** The theorem of one state: what was acknowledged is queued, in flight or delivered in pool `p`, or in
      the log, or on record as lost or torn. */
  lemma Accounted(g: Setup, s: State, q: string, p: nat)
    requires Inv(g, s, q, p)
    ensures var f := ByHandle(g.codec, q); var pool := s.pools[p];
      Sum(s.acked, ByMessage(g.codec, q))
        <= Sum(pool.queue, f) + P.InFlight(pool, f) + Sum(pool.delivered, f) + InLog(g.codec, q, s.w)
           + Sum(pool.lost, f) + Sum(s.torn, ByEntry(g.codec, q))
  {
    var f := ByHandle(g.codec, q);
    var pool := s.pools[p];
    Chain(Sum(s.acked, ByMessage(g.codec, q)), Sum(s.threads, ByThread(g, q, p)), Sum(pool.taken, f),
          Sum(pool.strict, f), Sum(pool.queue, f), P.InFlight(pool, f), Sum(pool.delivered, f), Sum(pool.spilled, f),
          Sum(pool.lost, f), InLog(g.codec, q, s.w), Sum(s.deleted, ByEntry(g.codec, q)),
          Sum(s.torn, ByEntry(g.codec, q)), Replayed(g, q, s.pass) + Calling(g, q, p, s.call));
  }

  /** The arithmetic of the four invariants. */
  lemma Chain<K(!new)>(acked: multiset<K>, under: multiset<K>, taken: multiset<K>, strict: multiset<K>,
                 queue: multiset<K>, flight: multiset<K>, delivered: multiset<K>, spilled: multiset<K>,
                 lost: multiset<K>,
                 log: multiset<K>, deleted: multiset<K>, torn: multiset<K>, replayed: multiset<K>)
    requires acked + under <= taken
    requires P.Balanced(taken + strict, queue, flight, delivered, spilled, lost)
    requires spilled <= log + deleted + torn
    requires deleted + replayed <= strict
    ensures acked <= queue + flight + delivered + log + lost + torn
  {
    forall k ensures acked[k] <= (queue + flight + delivered + log + lost + torn)[k] {
      assert (acked + under)[k] <= taken[k];
      assert (taken + strict)[k] == (queue + flight + delivered + spilled + lost)[k];
      assert spilled[k] <= (log + deleted + torn)[k];
      assert (deleted + replayed)[k] <= strict[k];
    }
  }

  // ---------- steps ----------

  lemma SumSingle(c: Codec, q: string, xs: seq<Handle>, h: Handle)
    ensures Sum(xs + [h], ByHandle(c, q)) == Sum(xs, ByHandle(c, q)) + Counts(c, q, h.msg)
  {
    SumPush(xs, h, ByHandle(c, q));
  }

  /** A writer step on the log leaves a pass alone. */
  lemma LogSpill(g: Setup, q: string, w: Wal, pass: Option<R.Pass>, m: Message)
    requires Proper(g) && LogInv(g, w, pass) && Encodable(g.codec, EntryOf(m))
    ensures var w1 := Write(g.codec, g.log, w, EntryOf(m));
      LogInv(g, w1, pass) && InLog(g.codec, q, w1) == InLog(g.codec, q, w) + Counts(g.codec, q, m)
  {
    LogWrite(g.codec, g.log, q, w, m);
    if pass.Some? {
      R.WriterKeepsPass(g.codec, g.log, g.scan, w, pass.value, WalRuns.WriteEntry(EntryOf(m)));
    }
  }

  lemma MoreLog<K>(spilled: multiset<K>, m: multiset<K>, log: multiset<K>, deleted: multiset<K>, torn: multiset<K>)
    requires spilled <= log + deleted + torn
    ensures spilled <= (log + m) + deleted + torn && spilled + m <= (log + m) + deleted + torn
  {
  }

  /** What a step of pool `i` leaves behind in its books, as far as counting in pool `p` goes. */
  ghost predicate Booked(g: Setup, q: string, pool: P.Pool<Handle>, r: P.Result<Handle>) {
    && (r.spill.Some? ==> Encodable(g.codec, EntryOf(r.spill.value.msg)))
    && r.pool.spilled == pool.spilled + (if r.spill.Some? then [r.spill.value] else [])
    && P.Conserved(r.pool, ByHandle(g.codec, q))
    && pool.taken <= r.pool.taken && pool.strict <= r.pool.strict
  }

  lemma PooledSpills(g: Setup, s: State, q: string, p: nat, i: nat, r: P.Result<Handle>)
    requires Proper(g) && LogInv(g, s.w, s.pass) && p < |s.pools| && i < |s.pools|
    requires SpillInv(g, q, s.pools[p].spilled, s.w, s.deleted, s.torn)
    requires r.spill.Some? ==> Encodable(g.codec, EntryOf(r.spill.value.msg))
    requires i == p ==> r.pool.spilled == s.pools[i].spilled + (if r.spill.Some? then [r.spill.value] else [])
    ensures var s1 := Pooled(g, s, i, r);
      LogInv(g, s1.w, s1.pass) && SpillInv(g, q, s1.pools[p].spilled, s1.w, s1.deleted, s1.torn)
  {
    var c := g.codec;
    if r.spill.Some? {
      var h := r.spill.value;
      LogSpill(g, q, s.w, s.pass, h.msg);
      SumSingle(c, q, s.pools[i].spilled, h);
      MoreLog(Sum(s.pools[p].spilled, ByHandle(c, q)), Counts(c, q, h.msg), InLog(c, q, s.w),
              Sum(s.deleted, ByEntry(c, q)), Sum(s.torn, ByEntry(c, q)));
    } else if i == p {
      assert s.pools[i].spilled + [] == s.pools[i].spilled;
    }
  }

  lemma {:induction false} SumPrefix(c: Codec, q: string, xs: seq<Handle>, ys: seq<Handle>)
    requires xs <= ys
    ensures Sum(xs, ByHandle(c, q)) <= Sum(ys, ByHandle(c, q))
  {
    assert ys == xs + ys[|xs|..];
    SumAppend(xs, ys[|xs|..], ByHandle(c, q));
  }

  /** A step of any pool, dispatches and callbacks standing still. */
  lemma PooledKeeps(g: Setup, s: State, q: string, p: nat, i: nat, r: P.Result<Handle>)
    requires Inv(g, s, q, p) && i < |s.pools| && (i == p ==> Booked(g, q, s.pools[i], r))
    requires r.spill.Some? ==> Encodable(g.codec, EntryOf(r.spill.value.msg))
    ensures Inv(g, Pooled(g, s, i, r), q, p)
  {
    PooledSpills(g, s, q, p, i, r);
    if i == p {
      SumPrefix(g.codec, q, s.pools[p].taken, r.pool.taken);
      SumPrefix(g.codec, q, s.pools[p].strict, r.pool.strict);
    }
  }

  lemma WorkKeeps(g: Setup, s: State, q: string, p: nat, i: nat, ev: P.Event<Handle>)
    requires Inv(g, s, q, p) && Enabled(g, s, Work(i, ev))
    ensures Inv(g, Step(g, s, Work(i, ev)), q, p)
  {
    var pool := s.pools[i];
    var r := P.Apply(g.pools[i], pool, ev);
    if i == p {
      P.ApplyConserves(g.pools[i], pool, ev, ByHandle(g.codec, q));
    }
    WorkBooked(g.pools[i], pool, ev);
    PooledKeeps(g, s, q, p, i, r);
  }

  lemma WorkBooked(cfg: P.Config, pool: P.Pool<Handle>, ev: P.Event<Handle>)
    requires P.Enabled(cfg, pool, ev) && !ev.Submit? && !ev.SubmitStrict?
    ensures var r := P.Apply(cfg, pool, ev);
      && r.pool.taken == pool.taken && r.pool.strict == pool.strict
      && r.pool.spilled == pool.spilled + (if r.spill.Some? then [r.spill.value] else [])
      && (r.spill.Some? ==>
            ev.Reject? && ev.io && pool.workers[ev.i].Rejecting? && r.spill.value == pool.workers[ev.i].msg)
  {
  }

  lemma SubmitFields(cfg: P.Config, pool: P.Pool<Handle>, h: Handle, io: bool)
    ensures var r := P.Submitted(cfg, pool, h, io);
      && (r.spill.Some? ==> io && r.spill.value == h)
      && r.pool.spilled == pool.spilled + (if r.spill.Some? then [r.spill.value] else [])
      && pool.taken <= r.pool.taken && r.pool.strict == pool.strict
      && (r.ok ==> r.pool.taken == pool.taken + [h])
  {
  }

  lemma SubmitBooked(g: Setup, q: string, cfg: P.Config, pool: P.Pool<Handle>, h: Handle, io: bool)
    requires P.Conserved(pool, ByHandle(g.codec, q))
    ensures Booked(g, q, pool, P.Submitted(cfg, pool, h, Logged(g, io, h.msg)))
  {
    var r := P.Submitted(cfg, pool, h, Logged(g, io, h.msg));
    SubmitFields(cfg, pool, h, Logged(g, io, h.msg));
    assert P.Conserved(r.pool, ByHandle(g.codec, q)) by {
      P.SubmittedConserves(cfg, pool, h, Logged(g, io, h.msg), ByHandle(g.codec, q));
    }
  }

  lemma StrictBooked(g: Setup, q: string, cfg: P.Config, pool: P.Pool<Handle>, h: Handle)
    requires P.Conserved(pool, ByHandle(g.codec, q))
    ensures var r := P.SubmittedStrict(cfg, pool, h);
      Booked(g, q, pool, r) && r.spill.None? && (r.ok ==> r.pool.strict == pool.strict + [h])
  {
    P.SubmittedStrictConserves(cfg, pool, h, ByHandle(g.codec, q));
  }

  /** Passing one more pool adds at most one message to what counts for `p`, and nothing unless that pool is `p`. */
  lemma PastNext(g: Setup, q: string, p: nat, h: Handle, k: nat)
    requires k < |FanOf(g, h.msg)|
    ensures Past(g, q, p, Running(h, k + 1)) <= Past(g, q, p, Running(h, k)) + Counts(g.codec, q, h.msg)
    ensures FanOf(g, h.msg)[k] != p ==> Past(g, q, p, Running(h, k + 1)) == Past(g, q, p, Running(h, k))
  {
  }

  /** At the end of the fan-out a message of project `q` counts for every pool of it. */
  lemma PastAll(g: Setup, q: string, p: nat, h: Handle)
    requires Routed(g, q, p)
    ensures Past(g, q, p, Running(h, |FanOf(g, h.msg)|)) == Counts(g.codec, q, h.msg)
  {
  }

  lemma Replace<K>(acked: multiset<K>, sum: multiset<K>, sum1: multiset<K>, was: multiset<K>, now: multiset<K>,
                   m: multiset<K>, taken: multiset<K>)
    requires acked + sum <= taken && sum1 + was == sum + now && now <= was + m
    ensures acked + sum1 <= taken + m
  {
    forall k ensures (acked + sum1)[k] <= (taken + m)[k] {
      assert (acked + sum)[k] <= taken[k];
      assert (sum1 + was)[k] == (sum + now)[k];
      assert now[k] <= (was + m)[k];
    }
  }

  /** A thread's move changes the sum over threads by its own contribution. */
  lemma AckMove(g: Setup, q: string, p: nat, acked: seq<Message>, threads: seq<Thread>, t: nat, next: Thread,
                taken: seq<Handle>, taken1: seq<Handle>, m: multiset<Envelope>)
    requires t < |threads| && AckInv(g, q, p, acked, threads, taken)
    requires Past(g, q, p, next) <= Past(g, q, p, threads[t]) + m
    requires Sum(taken, ByHandle(g.codec, q)) + m <= Sum(taken1, ByHandle(g.codec, q))
    ensures AckInv(g, q, p, acked, threads[t := next], taken1)
  {
    var f := ByThread(g, q, p);
    SumUpdate(threads, t, next, f);
    Replace(Sum(acked, ByMessage(g.codec, q)), Sum(threads, f), Sum(threads[t := next], f),
            Past(g, q, p, threads[t]), Past(g, q, p, next), m, Sum(taken, ByHandle(g.codec, q)));
  }

  lemma NoMore<K>(a: multiset<K>)
    ensures a <= a + multiset{} && a + multiset{} <= a
  {
  }

  /** The message pool plays no part in the counting. */
  lemma Regardless(g: Setup, s: State, q: string, p: nat, free: multiset<nat>, next: nat, leaked: multiset<nat>,
                   uploads: seq<(Message, Message)>)
    requires Inv(g, s, q, p)
    ensures Inv(g, s.(free := free, next := next, leaked := leaked, uploads := uploads), q, p)
  {
  }

  lemma WithThreads(g: Setup, s: State, q: string, p: nat, threads: seq<Thread>, free: multiset<nat>)
    requires Inv(g, s, q, p) && AckInv(g, q, p, s.acked, threads, s.pools[p].taken)
    ensures Inv(g, s.(threads := threads, free := free), q, p)
  {
  }

  lemma WithCall(g: Setup, s: State, q: string, p: nat, call: Option<Call>)
    requires Inv(g, s, q, p) && CallInv(g, s.pass, call)
    requires ReplayInv(g, q, p, s.deleted, s.pass, call, s.pools[p].strict)
    ensures Inv(g, s.(call := call), q, p)
  {
  }

  lemma SubmitPooled(g: Setup, s: State, q: string, p: nat, i: nat, copy: Handle, io: bool)
    requires Inv(g, s, q, p) && i < |s.pools|
    ensures Inv(g, Pooled(g, s, i, P.Submitted(g.pools[i], s.pools[i], copy, Logged(g, io, copy.msg))), q, p)
  {
    SubmitFields(g.pools[i], s.pools[i], copy, Logged(g, io, copy.msg));
    if i == p {
      SubmitBooked(g, q, g.pools[i], s.pools[i], copy, io);
    }
    PooledKeeps(g, s, q, p, i, P.Submitted(g.pools[i], s.pools[i], copy, Logged(g, io, copy.msg)));
  }

  /** Pool `i` answers dispatch `t`: on success the dispatch moves on, and if it was `p` the copy is on its books. */
  lemma SubmitAcks(g: Setup, q: string, p: nat, acked: seq<Message>, threads: seq<Thread>, t: nat, ok: bool,
                   was: seq<Handle>, now: seq<Handle>, copy: Handle)
    requires t < |threads| && threads[t].Running? && AckInv(g, q, p, acked, threads, was)
    requires var th := threads[t];
      && th.k < |FanOf(g, th.h.msg)| && copy.msg == CopyOf(th.h.msg)
      && was <= now && (ok && FanOf(g, th.h.msg)[th.k] == p ==> now == was + [copy])
    ensures AckInv(g, q, p, acked, threads[t := if ok then Running(threads[t].h, threads[t].k + 1) else Ended], now)
  {
    var c := g.codec;
    var th := threads[t];
    var next := if ok then Running(th.h, th.k + 1) else Ended;
    var m := if ok && FanOf(g, th.h.msg)[th.k] == p then Counts(c, q, th.h.msg) else multiset{};
    assert Past(g, q, p, next) <= Past(g, q, p, th) + m by {
      PastNext(g, q, p, th.h, th.k);
    }
    assert Sum(was, ByHandle(c, q)) + m <= Sum(now, ByHandle(c, q)) by {
      WireOfCopy(c, th.h.msg);
      SumSingle(c, q, was, copy);
      SumPrefix(c, q, was, now);
      NoMore(Sum(was, ByHandle(c, q)));
    }
    AckMove(g, q, p, acked, threads, t, next, was, now, m);
  }

  /** The dispatch after the reply of pool `i`. */
  lemma AnsweredKeeps(g: Setup, s: State, q: string, p: nat, t: nat, ok: bool)
    requires Inv(g, s, q, p) && t < |s.threads| && s.threads[t].Running?
    requires AckInv(g, q, p, s.acked, Answered(s, t, ok).threads, s.pools[p].taken)
    ensures Inv(g, Answered(s, t, ok), q, p)
  {
  }

  lemma SubmitAnswered(g: Setup, s: State, s1: State, q: string, p: nat, t: nat, i: nat, copy: Handle, ok: bool)
    requires p < |s.pools| && i < |s.pools| && t < |s.threads| && s.threads[t].Running?
    requires s1.threads == s.threads && s1.acked == s.acked && |s1.pools| == |s.pools|
    requires p != i ==> s1.pools[p] == s.pools[p]
    requires AckInv(g, q, p, s.acked, s.threads, s.pools[p].taken)
    requires var th := s.threads[t];
      th.k < |FanOf(g, th.h.msg)| && i == FanOf(g, th.h.msg)[th.k] && copy.msg == CopyOf(th.h.msg)
    requires s.pools[i].taken <= s1.pools[i].taken && (ok ==> s1.pools[i].taken == s.pools[i].taken + [copy])
    ensures AckInv(g, q, p, s1.acked, Answered(s1, t, ok).threads, s1.pools[p].taken)
  {
    SubmitAcks(g, q, p, s.acked, s.threads, t, ok, s.pools[p].taken, s1.pools[p].taken, copy);
  }

  lemma SubmitKeeps(g: Setup, s: State, q: string, p: nat, t: nat, r: nat, io: bool)
    requires Inv(g, s, q, p) && t < |s.threads| && s.threads[t].Running?
    requires s.threads[t].k < |FanOf(g, s.threads[t].h.msg)| && FanOf(g, s.threads[t].h.msg)[s.threads[t].k] < |s.pools|
    ensures Inv(g, Submitting(g, s, t, r, io), q, p)
  {
    var th := s.threads[t];
    var i := FanOf(g, th.h.msg)[th.k];
    var copy := Handle(r, CopyOf(th.h.msg));
    var a := Acquired(s, r);
    Regardless(g, s, q, p, a.free, a.next, s.leaked, s.uploads);
    SubmitPooled(g, a, q, p, i, copy, io);
    var res := P.Submitted(g.pools[i], s.pools[i], copy, Logged(g, io, copy.msg));
    SubmitFields(g.pools[i], s.pools[i], copy, Logged(g, io, copy.msg));
    SubmitAnswered(g, a, Pooled(g, a, i, res), q, p, t, i, copy, res.ok);
    AnsweredKeeps(g, Pooled(g, a, i, res), q, p, t, res.ok);
  }

  lemma NewThread(g: Setup, q: string, p: nat, acked: seq<Message>, threads: seq<Thread>, taken: seq<Handle>, h: Handle)
    requires AckInv(g, q, p, acked, threads, taken)
    ensures AckInv(g, q, p, acked, threads + [Running(h, 0)], taken)
  {
    SumPush(threads, Running(h, 0), ByThread(g, q, p));
    assert Past(g, q, p, Running(h, 0)) == multiset{};
    NoMore(Sum(threads, ByThread(g, q, p)));
  }

  lemma StartKeeps(g: Setup, s: State, q: string, p: nat, u: Message, r: nat)
    requires Inv(g, s, q, p)
    ensures Inv(g, Started(g, s, u, r), q, p)
  {
    var s1 := Started(g, s, u, r);
    if FanOf(g, u) != [] && Piped(g, u).Some? {
      NewThread(g, q, p, s.acked, s.threads, s.pools[p].taken, Handle(r, Piped(g, u).value));
    }
    WithThreads(g, s, q, p, s1.threads, s1.free);
    Regardless(g, s.(threads := s1.threads, free := s1.free), q, p, s1.free, s1.next, s1.leaked, s1.uploads);
  }

  lemma ReturnKeeps(g: Setup, s: State, q: string, p: nat, t: nat)
    requires Inv(g, s, q, p) && Enabled(g, s, Return(t))
    ensures Inv(g, Returned(s, t), q, p)
  {
    var h := s.threads[t].h;
    var f := ByThread(g, q, p);
    PastAll(g, q, p, h);
    SumPush(s.acked, h.msg, ByMessage(g.codec, q));
    SumUpdate(s.threads, t, Ended, f);
    Hand(Sum(s.acked, ByMessage(g.codec, q)), Counts(g.codec, q, h.msg), Sum(s.threads, f),
         Sum(s.threads[t := Ended], f), Sum(s.pools[p].taken, ByHandle(g.codec, q)));
  }

  lemma Hand<K>(acked: multiset<K>, m: multiset<K>, sum: multiset<K>, sum1: multiset<K>, taken: multiset<K>)
    requires acked + sum <= taken && sum1 + m == sum + multiset{}
    ensures (acked + m) + sum1 <= taken
  {
    assert (acked + m) + sum1 == acked + (sum1 + m);
  }

  // ---------- replay steps ----------

  lemma CallKeeps(g: Setup, s: State, q: string, p: nat, r: nat)
    requires Inv(g, s, q, p) && AtLine(g, s) && CurrentLine(g, s).Some?
    ensures Inv(g, Called(g, s, r), q, p)
  {
    var c := g.codec;
    var a := Acquired(s, r);
    Regardless(g, s, q, p, a.free, a.next, s.leaked, s.uploads);
    var m := FromEntry(CurrentLine(g, s).value);
    if FanOf(g, m) == [] {
      Regardless(g, s, q, p, a.free + multiset{r}, a.next, s.leaked, s.uploads);
      DropPass(g, Released(a, r), q, p);
    } else {
      var call := Some(Call(Handle(r, m), 0));
      assert Calling(g, q, p, call) == multiset{};
      WithCall(g, a, q, p, call);
    }
  }

  /** Forgetting what is under way only makes room. */
  lemma Fewer<K>(deleted: multiset<K>, replayed: multiset<K>, calling: multiset<K>, strict: multiset<K>)
    requires deleted + replayed + calling <= strict
    ensures deleted + multiset{} + multiset{} <= strict && deleted + replayed + multiset{} <= strict
  {
  }

  lemma DropPass(g: Setup, s: State, q: string, p: nat)
    requires Inv(g, s, q, p)
    ensures Inv(g, s.(pass := None, call := None), q, p)
  {
  }

  lemma MoreStrict<K>(deleted: multiset<K>, replayed: multiset<K>, was: multiset<K>, now: multiset<K>,
                      m: multiset<K>, strict: multiset<K>, strict1: multiset<K>)
    requires deleted + replayed + was <= strict && now <= was + m && strict + m <= strict1
    ensures deleted + replayed + now <= strict1
  {
  }

  lemma StrictPooled(g: Setup, s: State, q: string, p: nat, i: nat, copy: Handle)
    requires Inv(g, s, q, p) && i < |s.pools|
    ensures Inv(g, Pooled(g, s, i, P.SubmittedStrict(g.pools[i], s.pools[i], copy)), q, p)
  {
    if i == p {
      StrictBooked(g, q, g.pools[i], s.pools[i], copy);
    }
    PooledKeeps(g, s, q, p, i, P.SubmittedStrict(g.pools[i], s.pools[i], copy));
  }

  lemma StrictCounts(g: Setup, q: string, p: nat, deleted: seq<Entry>, pass: Option<R.Pass>, call: Call,
                     was: seq<Handle>, now: seq<Handle>, copy: Handle)
    requires call.k < |FanOf(g, call.h.msg)| && copy.msg == CopyOf(call.h.msg)
    requires ReplayInv(g, q, p, deleted, pass, Some(call), was)
    requires now == if FanOf(g, call.h.msg)[call.k] == p then was + [copy] else was
    ensures ReplayInv(g, q, p, deleted, pass, Some(Call(call.h, call.k + 1)), now)
  {
    var c := g.codec;
    var m := if FanOf(g, call.h.msg)[call.k] == p then Counts(c, q, call.h.msg) else multiset{};
    assert Sum(was, ByHandle(c, q)) + m <= Sum(now, ByHandle(c, q)) by {
      WireOfCopy(c, call.h.msg);
      SumSingle(c, q, was, copy);
      NoMore(Sum(was, ByHandle(c, q)));
    }
    PastNext(g, q, p, call.h, call.k);
    MoreStrict(Sum(deleted, ByEntry(c, q)), Replayed(g, q, pass), Past(g, q, p, Running(call.h, call.k)),
               Past(g, q, p, Running(call.h, call.k + 1)), m, Sum(was, ByHandle(c, q)), Sum(now, ByHandle(c, q)));
  }

  lemma CallAnsweredKeeps(g: Setup, s: State, q: string, p: nat, call: Call, ok: bool, was: seq<Handle>, copy: Handle)
    requires Inv(g, s, q, p) && s.call == Some(call)
    requires call.k < |FanOf(g, call.h.msg)| && copy.msg == CopyOf(call.h.msg)
    requires ReplayInv(g, q, p, s.deleted, s.pass, Some(call), was)
    requires ok ==> s.pools[p].strict == if FanOf(g, call.h.msg)[call.k] == p then was + [copy] else was
    ensures Inv(g, CallAnswered(s, call, ok), q, p)
  {
    if ok {
      StrictCounts(g, q, p, s.deleted, s.pass, call, was, s.pools[p].strict, copy);
      WithCall(g, s, q, p, Some(Call(call.h, call.k + 1)));
    } else {
      CallFails(g, s, q, p, call);
    }
  }

  lemma CallFails(g: Setup, s: State, q: string, p: nat, call: Call)
    requires Inv(g, s, q, p)
    ensures Inv(g, CallAnswered(s, call, false), q, p)
  {
    DropPass(g, s, q, p);
    Regardless(g, s.(call := None, pass := None), q, p, s.free + multiset{call.h.ref}, s.next, s.leaked, s.uploads);
  }

  lemma StrictKeeps(g: Setup, s: State, q: string, p: nat, r: nat)
    requires Inv(g, s, q, p) && s.call.Some?
    requires s.call.value.k < |FanOf(g, s.call.value.h.msg)| && FanOf(g, s.call.value.h.msg)[s.call.value.k] < |s.pools|
    ensures Inv(g, StrictSubmitting(g, s, r), q, p)
  {
    var call := s.call.value;
    var i := FanOf(g, call.h.msg)[call.k];
    var copy := Handle(r, CopyOf(call.h.msg));
    var a := Acquired(s, r);
    Regardless(g, s, q, p, a.free, a.next, s.leaked, s.uploads);
    StrictPooled(g, a, q, p, i, copy);
    var res := P.SubmittedStrict(g.pools[i], s.pools[i], copy);
    CallAnsweredKeeps(g, Pooled(g, a, i, res), q, p, call, res.ok, s.pools[p].strict, copy);
  }

  /** A line behind us: nothing if it was skipped, else its entry. */
  lemma ReplayedAdvance(g: Setup, q: string, w: Wal, pass: R.Pass)
    requires R.PassInv(g.scan, w, pass) && pass.done < |pass.list| && pass.line < |R.Scanned(g.scan, w, pass).lines|
    ensures var d := DecodeLine(g.codec, R.Scanned(g.scan, w, pass).lines[pass.line]);
      Replayed(g, q, Some(R.Advanced(pass)))
        == Replayed(g, q, Some(pass)) + (if d.Some? then Counts(g.codec, q, FromEntry(d.value)) else multiset{})
  {
    var d := DecodeLine(g.codec, R.Scanned(g.scan, w, pass).lines[pass.line]);
    R.PartialGrows(g.codec, g.scan, pass);
    var was := R.Partial(g.codec, g.scan, pass);
    if d.Some? {
      SumPush(was, d.value, ByEntry(g.codec, q));
    } else {
      assert was + [] == was;
    }
  }

  lemma SkipKeeps(g: Setup, s: State, q: string, p: nat)
    requires Inv(g, s, q, p) && Enabled(g, s, PassSkip)
    ensures Inv(g, Step(g, s, PassSkip), q, p)
  {
    ReplayedAdvance(g, q, s.w, s.pass.value);
    R.AdvanceKeepsPass(g.scan, s.w, s.pass.value);
    NoMore(Replayed(g, q, s.pass));
  }

  lemma CallReturnKeeps(g: Setup, s: State, q: string, p: nat)
    requires Inv(g, s, q, p) && Enabled(g, s, CallReturn)
    ensures Inv(g, CallEnded(s), q, p)
  {
    var h := s.call.value.h;
    R.AdvanceKeepsPass(g.scan, s.w, s.pass.value);
    ReplayedAdvance(g, q, s.w, s.pass.value);
    PastAll(g, q, p, h);
    Shift(Sum(s.deleted, ByEntry(g.codec, q)), Replayed(g, q, s.pass), Counts(g.codec, q, h.msg),
          Sum(s.pools[p].strict, ByHandle(g.codec, q)));
  }

  lemma Shift<K>(deleted: multiset<K>, replayed: multiset<K>, m: multiset<K>, strict: multiset<K>)
    requires deleted + replayed + m <= strict
    ensures deleted + (replayed + m) + multiset{} <= strict && (deleted + replayed) + multiset{} + multiset{} <= strict
  {
  }

  lemma BeginKeeps(g: Setup, s: State, q: string, p: nat, list: seq<nat>)
    requires Inv(g, s, q, p) && Enabled(g, s, PassBegin(list))
    ensures Inv(g, Step(g, s, PassBegin(list)), q, p)
  {
    var pass := R.Begun(s.w, list);
    R.BeginPass(g.codec, g.scan, s.w, list);
    R.FreshSegment(g.codec, g.scan, pass);
    Fewer(Sum(s.deleted, ByEntry(g.codec, q)), Replayed(g, q, s.pass), Calling(g, q, p, s.call),
          Sum(s.pools[p].strict, ByHandle(g.codec, q)));
  }

  lemma FinishKeeps(g: Setup, s: State, q: string, p: nat, removable: bool)
    requires Inv(g, s, q, p) && AtEnd(g, s)
    ensures Inv(g, SegmentEnded(g, s, removable), q, p)
  {
    var pass := s.pass.value;
    if R.Scanned(g.scan, s.w, pass).tooLong {
      DropPass(g, s, q, p);
    } else {
      R.FinishKeepsPass(g.scan, s.w, pass, removable);
      R.FreshSegment(g.codec, g.scan, R.Finished(pass, removable));
      var c := g.codec;
      Shift(Sum(s.deleted, ByEntry(c, q)), Replayed(g, q, s.pass), multiset{}, Sum(s.pools[p].strict, ByHandle(c, q)));
      Fewer(Sum(s.deleted, ByEntry(c, q)), Replayed(g, q, s.pass), multiset{}, Sum(s.pools[p].strict, ByHandle(c, q)));
      if removable {
        DeleteCounted(g, s, q, p);
      }
    }
  }

  /** Deletion moves the segment's entries from the log to the record of deleted ones. */
  lemma DeleteCounted(g: Setup, s: State, q: string, p: nat)
    requires Inv(g, s, q, p) && AtEnd(g, s) && !R.Scanned(g.scan, s.w, s.pass.value).tooLong
    ensures var pass := s.pass.value; var n := pass.list[pass.done]; var es := Entries(g.codec, s.w.disk[n]);
      && WalLog.Inv(g.codec, Remove(s.w, n))
      && Sum(s.deleted + es, ByEntry(g.codec, q)) == Sum(s.deleted, ByEntry(g.codec, q)) + Replayed(g, q, s.pass)
      && SpillInv(g, q, s.pools[p].spilled, Remove(s.w, n), s.deleted + es, s.torn)
  {
    var c := g.codec;
    var pass := s.pass.value;
    var n := pass.list[pass.done];
    var es := Entries(c, s.w.disk[n]);
    R.WholeSegment(c, g.scan, s.w, pass);
    LogRemove(c, q, s.w, n);
    SumAppend(s.deleted, es, ByEntry(c, q));
    Carry(InLog(c, q, Remove(s.w, n)), Sum(es, ByEntry(c, q)), Sum(s.deleted, ByEntry(c, q)),
          Sum(s.torn, ByEntry(c, q)));
  }

  lemma Carry<K>(log: multiset<K>, m: multiset<K>, deleted: multiset<K>, torn: multiset<K>)
    ensures (log + m) + deleted + torn == log + (deleted + m) + torn
    ensures (log + m) + deleted + torn == log + deleted + (torn + m)
  {
  }

  // ---------- process ends ----------

  lemma {:induction false} CarriedSum(c: Codec, q: string, ws: seq<P.Worker<Handle>>)
    ensures Sum(Carried(ws), ByHandle(c, q)) == Sum(ws, P.PendingBy(ByHandle(c, q)))
  {
    var f := ByHandle(c, q);
    if ws != [] {
      CarriedSum(c, q, ws[1..]);
      var head := if ws[0].Idle? || ws[0].Exited? || ws[0].Sent? then [] else [ws[0].msg];
      SumAppend(head, Carried(ws[1..]), f);
      if head != [] {
        SumOne(ws[0].msg, f);
      }
      assert Sum(head, f) == P.Pending(ws[0], f);
    }
  }

  lemma Empties<K>(t: multiset<K>, queue: multiset<K>, flight: multiset<K>, d: multiset<K>, x: multiset<K>,
                   l: multiset<K>, l1: multiset<K>)
    requires P.Balanced(t, queue, flight, d, x, l) && l1 == l + (queue + flight)
    ensures P.Balanced(t, multiset{}, multiset{}, d, x, l1)
  {
  }

  /** What the process takes with it is booked as lost; a drained pool takes nothing. */
  lemma RenewedConserves(c: Codec, q: string, pool: P.Pool<Handle>, workers: nat, lost: seq<Handle>)
    requires P.Conserved(pool, ByHandle(c, q))
    requires Sum(lost, ByHandle(c, q)) == Sum(pool.queue, ByHandle(c, q)) + P.InFlight(pool, ByHandle(c, q))
    ensures P.Conserved(Renewed(pool, workers, lost), ByHandle(c, q))
  {
    var f := ByHandle(c, q);
    var r := Renewed(pool, workers, lost);
    P.NewWorkers(r.workers, f);
    SumAppend(pool.lost, lost, f);
    Empties(Sum(pool.taken, f) + Sum(pool.strict, f), Sum(pool.queue, f), P.InFlight(pool, f), Sum(pool.delivered, f),
            Sum(pool.spilled, f), Sum(pool.lost, f), Sum(r.lost, f));
  }

  lemma NoThreads(g: Setup, q: string, p: nat, acked: seq<Message>, threads: seq<Thread>, taken: seq<Handle>)
    requires AckInv(g, q, p, acked, threads, taken)
    ensures AckInv(g, q, p, acked, [], taken)
  {
  }

  lemma RebornKeeps(g: Setup, s: State, q: string, p: nat, w: Wal, crash: bool, torn: seq<Entry>)
    requires Inv(g, s, q, p) && WalLog.Inv(g.codec, w)
    requires SpillInv(g, q, s.pools[p].spilled, w, s.deleted, torn)
    requires !crash ==> Engine.Idle(s.pools[p])
    ensures Inv(g, Reborn(g, s, w, crash).(torn := torn), q, p)
  {
    var c := g.codec;
    var pool := s.pools[p];
    var lost := if crash then pool.queue + Carried(pool.workers) else [];
    assert Sum(lost, ByHandle(c, q)) == Sum(pool.queue, ByHandle(c, q)) + P.InFlight(pool, ByHandle(c, q)) by {
      if crash {
        SumAppend(pool.queue, Carried(pool.workers), ByHandle(c, q));
        CarriedSum(c, q, pool.workers);
      } else {
        P.NewWorkers(pool.workers, ByHandle(c, q));
      }
    }
    assert P.Conserved(Renewed(pool, g.workers[p], lost), ByHandle(c, q)) by {
      RenewedConserves(c, q, pool, g.workers[p], lost);
    }
    NoThreads(g, q, p, s.acked, s.threads, pool.taken);
    Fewer(Sum(s.deleted, ByEntry(c, q)), Replayed(g, q, s.pass), Calling(g, q, p, s.call),
          Sum(pool.strict, ByHandle(c, q)));
  }

  lemma RestartKeeps(g: Setup, s: State, q: string, p: nat)
    requires Inv(g, s, q, p) && Enabled(g, s, Restarted)
    ensures Inv(g, Step(g, s, Restarted), q, p)
  {
    ReopenRefines(g.codec, s.w);
    RebornKeeps(g, s, q, p, Restart(s.w.disk), false, s.torn);
  }

  lemma CrashKeeps(g: Setup, s: State, q: string, p: nat, k: nat)
    requires Inv(g, s, q, p)
    ensures Inv(g, CrashedState(g, s, k), q, p)
  {
    var c := g.codec;
    var cut := Active(c, s.w)[Kept(c, s.w, k)..];
    LogCrash(c, q, s.w, k);
    SumAppend(s.torn, cut, ByEntry(c, q));
    Carry(InLog(c, q, Crash(s.w, k)), Sum(cut, ByEntry(c, q)), Sum(s.deleted, ByEntry(c, q)),
          Sum(s.torn, ByEntry(c, q)));
    RebornKeeps(g, s, q, p, Crash(s.w, k), true, s.torn + cut);
  }

  lemma FlushKeeps(g: Setup, s: State, q: string, p: nat, w: Wal, ev: WalRuns.Event)
    requires Inv(g, s, q, p) && WalRuns.Enabled(s.w, ev) && (ev.FlushBuffer? || ev.CloseWriter?)
    requires w == WalRuns.Step(g.codec, g.log, s.w, ev)
    ensures Inv(g, s.(w := w), q, p)
  {
    match ev {
      case FlushBuffer(k) => FlushRefines(g.codec, s.w, k);
      case CloseWriter => CloseRefines(g.codec, s.w);
    }
    if s.pass.Some? {
      R.WriterKeepsPass(g.codec, g.log, g.scan, s.w, s.pass.value, ev);
    }
  }

  // ---------- every run ----------

  lemma DispatchStepKeeps(g: Setup, s: State, q: string, p: nat, ev: Event)
    requires Inv(g, s, q, p) && Enabled(g, s, ev) && OfDispatch(ev)
    ensures Inv(g, Step(g, s, ev), q, p)
  {
    match ev
    case Start(u, r) => StartKeeps(g, s, q, p, u, r);
    case SubmitNext(t, r, io) => SubmitKeeps(g, s, q, p, t, r, io);
    case Return(t) => ReturnKeeps(g, s, q, p, t);
    case Work(i, e) => WorkKeeps(g, s, q, p, i, e);
  }

  lemma PassStepKeeps(g: Setup, s: State, q: string, p: nat, ev: Event)
    requires Inv(g, s, q, p) && Enabled(g, s, ev) && OfPass(ev)
    ensures Inv(g, Step(g, s, ev), q, p)
  {
    match ev
    case PassBegin(list) => BeginKeeps(g, s, q, p, list);
    case PassSkip => SkipKeeps(g, s, q, p);
    case PassRefuse => DropPass(g, s, q, p);
    case PassFinish(removable) => FinishKeeps(g, s, q, p, removable);
  }

  lemma CallbackStepKeeps(g: Setup, s: State, q: string, p: nat, ev: Event)
    requires Inv(g, s, q, p) && Enabled(g, s, ev) && OfCallback(ev)
    ensures Inv(g, Step(g, s, ev), q, p)
  {
    match ev
    case PassCall(r) => CallKeeps(g, s, q, p, r);
    case StrictNext(r) => StrictKeeps(g, s, q, p, r);
    case CallReturn => CallReturnKeeps(g, s, q, p);
  }

  lemma LogStepKeeps(g: Setup, s: State, q: string, p: nat, ev: Event)
    requires Inv(g, s, q, p) && Enabled(g, s, ev) && OfLog(ev)
    ensures Inv(g, Step(g, s, ev), q, p)
  {
    match ev
    case WalFlush(k) => FlushKeeps(g, s, q, p, Flush(s.w, k), WalRuns.FlushBuffer(k));
    case WalClose => FlushKeeps(g, s, q, p, Close(s.w), WalRuns.CloseWriter);
    case Restarted => RestartKeeps(g, s, q, p);
    case Crashed(k) => CrashKeeps(g, s, q, p, k);
  }

  lemma StepKeeps(g: Setup, s: State, q: string, p: nat, ev: Event)
    requires Inv(g, s, q, p) && Enabled(g, s, ev)
    ensures Inv(g, Step(g, s, ev), q, p)
  {
    if OfDispatch(ev) {
      DispatchStepKeeps(g, s, q, p, ev);
    } else if OfPass(ev) {
      PassStepKeeps(g, s, q, p, ev);
    } else if OfCallback(ev) {
      CallbackStepKeeps(g, s, q, p, ev);
    } else {
      LogStepKeeps(g, s, q, p, ev);
    }
  }

  lemma {:induction false} RunKeeps(g: Setup, s: State, q: string, p: nat, evs: seq<Event>)
    requires Inv(g, s, q, p) && IsRun(g, s, evs)
    ensures Inv(g, Run(g, s, evs), q, p)
    decreases |evs|
  {
    if evs != [] {
      StepKeeps(g, s, q, p, evs[0]);
      RunKeeps(g, Step(g, s, evs[0]), q, p, evs[1..]);
    }
  }

  lemma InitKeeps(g: Setup, q: string, p: nat)
    requires Proper(g) && p < |g.pools| && Routed(g, q, p)
    ensures Inv(g, Init(g), q, p)
  {
    WalRuns.FreshInv(g.codec);
    P.NewPoolKeeps<Handle, Envelope>(g.pools[p], g.workers[p], ByHandle(g.codec, q));
  }

  /** At-least-once with full accounting, in every state of every run, for every pool of every project:
      each acknowledged message is queued, in flight or delivered there, or in the log, or on record as
      lost by that pool or torn by a crash. */
  lemma {:induction false} EveryMessageAccounted(g: Setup, evs: seq<Event>, q: string, p: nat)
    requires Proper(g) && p < |g.pools| && Routed(g, q, p) && IsRun(g, Init(g), evs)
    ensures var s := Run(g, Init(g), evs); var f := ByHandle(g.codec, q); p < |s.pools| && var pool := s.pools[p];
      Sum(s.acked, ByMessage(g.codec, q))
        <= Sum(pool.queue, f) + P.InFlight(pool, f) + Sum(pool.delivered, f) + InLog(g.codec, q, s.w)
           + Sum(pool.lost, f) + Sum(s.torn, ByEntry(g.codec, q))
  {
    InitKeeps(g, q, p);
    RunKeeps(g, Init(g), q, p, evs);
    Accounted(g, Run(g, Init(g), evs), q, p);
  }

  /** The next submit of dispatch `t` finds the channel full. */
  predicate Overflows(g: Setup, s: State, t: nat)
    requires t < |s.threads| && s.threads[t].Running? && |s.pools| == |g.pools|
    requires var fan := FanOf(g, s.threads[t].h.msg); s.threads[t].k < |fan| && fan[s.threads[t].k] < |s.pools|
  {
    var p := FanOf(g, s.threads[t].h.msg)[s.threads[t].k];
    !s.pools[p].closed && |s.pools[p].queue| >= g.pools[p].capacity
  }

  /** A step that can lose nothing: fallback mode, every write to the log that it attempts succeeds, no crash. */
  ghost predicate Lossless(g: Setup, s: State, ev: Event)
    requires Enabled(g, s, ev)
  {
    && (forall i :: 0 <= i < |g.pools| ==> g.pools[i].mode.FallbackMode?)
    && match ev
       case SubmitNext(t, _, io) => Overflows(g, s, t) ==> io && Encodable(g.codec, EntryOf(CopyOf(s.threads[t].h.msg)))
       case Work(_, e) => e.Reject? ==> e.io
       case Crashed(_) => false
       case _ => true
  }

  ghost predicate LosslessRun(g: Setup, s: State, evs: seq<Event>)
    requires IsRun(g, s, evs)
    decreases |evs|
  {
    evs == [] || (Lossless(g, s, evs[0]) && LosslessRun(g, Step(g, s, evs[0]), evs[1..]))
  }

  /** The books of losses stand still. */
  predicate NoLoss(s: State, s1: State, p: nat)
    requires p < |s.pools|
  {
    |s1.pools| == |s.pools| && s1.pools[p].lost == s.pools[p].lost && s1.torn == s.torn
  }

  /** A submit loses its copy although the dispatch goes on: exactly in fallback mode, on a full channel, when the
      write to the log fails. */
  predicate LosesQuietly(g: Setup, s: State, t: nat, io: bool)
    requires t < |s.threads| && s.threads[t].Running? && |s.pools| == |g.pools|
    requires var fan := FanOf(g, s.threads[t].h.msg); s.threads[t].k < |fan| && fan[s.threads[t].k] < |s.pools|
  {
    && Overflows(g, s, t) && g.pools[FanOf(g, s.threads[t].h.msg)[s.threads[t].k]].mode.FallbackMode?
    && !(io && Encodable(g.codec, EntryOf(CopyOf(s.threads[t].h.msg))))
  }

  lemma SubmitLoses(g: Setup, s: State, t: nat, r: nat, io: bool, p: nat)
    requires Enabled(g, s, SubmitNext(t, r, io)) && p < |s.pools|
    ensures var s1 := Submitting(g, s, t, r, io); var th := s.threads[t];
      && |s1.pools| == |s.pools| && s1.torn == s.torn
      && s1.pools[p].lost == (if p == FanOf(g, th.h.msg)[th.k] && LosesQuietly(g, s, t, io)
                              then s.pools[p].lost + [Handle(r, CopyOf(th.h.msg))] else s.pools[p].lost)
      && (LosesQuietly(g, s, t, io) ==> s1.threads == s.threads[t := Running(th.h, th.k + 1)])
  {
    var th := s.threads[t];
    var i := FanOf(g, th.h.msg)[th.k];
    var copy := Handle(r, CopyOf(th.h.msg));
    P.SubmittedLoses(g.pools[i], s.pools[i], copy, Logged(g, io, copy.msg));
  }

  /** The log has one more entry, which looks to a sink like `m`. */
  ghost predicate GainsEntry(c: Codec, before: seq<(nat, Entry)>, after: seq<(nat, Entry)>, m: Message) {
    && |after| == |before| + 1 && after[..|before|] == before
    && WireOf(c, FromEntry(after[|before|].1)) == WireOf(c, m) && after[|before|].1.project == m.project
  }

  lemma WriteGains(c: Codec, cfg: WalLog.Config, w: Wal, m: Message)
    requires Lawful(c) && WalLog.Inv(c, w) && Encodable(c, EntryOf(m))
    ensures GainsEntry(c, View(c, w), View(c, Write(c, cfg, w, EntryOf(m))), m)
  {
    WriteRefines(c, cfg, w, EntryOf(m));
    WireOfNormal(c, m);
  }

  /** What a submit to a full channel does in fallback mode when the write succeeds. */
  lemma SpillStep(g: Setup, s: State, t: nat, r: nat, p: nat)
    requires Enabled(g, s, SubmitNext(t, r, true)) && Overflows(g, s, t)
    requires p == FanOf(g, s.threads[t].h.msg)[s.threads[t].k] && g.pools[p].mode.FallbackMode?
    requires Encodable(g.codec, EntryOf(CopyOf(s.threads[t].h.msg)))
    ensures var s1 := Submitting(g, s, t, r, true); var th := s.threads[t];
      && s1.w == Write(g.codec, g.log, s.w, EntryOf(CopyOf(th.h.msg)))
      && |s1.pools| == |s.pools| && s1.pools[p].lost == s.pools[p].lost && s1.pools[p].queue == s.pools[p].queue
      && s1.threads == s.threads[t := Running(th.h, th.k + 1)]
  {
  }

  /** A full channel in fallback mode: a copy that can be encoded, if the write succeeds, is the new last entry of the
      log and looks to a sink like the message; nothing is lost, and the dispatch goes on. */
  lemma SubmitSpills(g: Setup, s: State, t: nat, r: nat, p: nat)
    requires Lawful(g.codec) && WalLog.Inv(g.codec, s.w)
    requires Enabled(g, s, SubmitNext(t, r, true)) && Overflows(g, s, t)
    requires p == FanOf(g, s.threads[t].h.msg)[s.threads[t].k] && g.pools[p].mode.FallbackMode?
    requires Encodable(g.codec, EntryOf(CopyOf(s.threads[t].h.msg)))
    ensures var s1 := Submitting(g, s, t, r, true); var th := s.threads[t];
      && GainsEntry(g.codec, View(g.codec, s.w), View(g.codec, s1.w), th.h.msg)
      && |s1.pools| == |s.pools| && s1.pools[p].lost == s.pools[p].lost && s1.pools[p].queue == s.pools[p].queue
      && s1.threads == s.threads[t := Running(th.h, th.k + 1)]
  {
    SpillStep(g, s, t, r, p);
    WriteGains(g.codec, g.log, s.w, CopyOf(s.threads[t].h.msg));
    WireOfCopy(g.codec, s.threads[t].h.msg);
  }

  /** And so is a message that a worker rejects in fallback mode. */
  lemma RejectSpills(g: Setup, s: State, p: nat, i: nat)
    requires Lawful(g.codec) && WalLog.Inv(g.codec, s.w) && |s.pools| == |g.pools| == |g.workers| && p < |s.pools|
    requires g.pools[p].mode.FallbackMode? && i < |s.pools[p].workers| && s.pools[p].workers[i].Rejecting?
    requires Encodable(g.codec, EntryOf(s.pools[p].workers[i].msg.msg))
    ensures Enabled(g, s, Work(p, P.Reject(i, true)))
    ensures var s1 := Step(g, s, Work(p, P.Reject(i, true)));
      && GainsEntry(g.codec, View(g.codec, s.w), View(g.codec, s1.w), s.pools[p].workers[i].msg.msg)
      && |s1.pools| == |s.pools| && s1.pools[p].lost == s.pools[p].lost
  {
    WriteGains(g.codec, g.log, s.w, s.pools[p].workers[i].msg.msg);
  }

  lemma StrictLossless(g: Setup, s: State, r: nat, p: nat)
    requires Enabled(g, s, StrictNext(r)) && p < |s.pools|
    ensures NoLoss(s, StrictSubmitting(g, s, r), p)
  {
    var c := s.call.value;
    var i := FanOf(g, c.h.msg)[c.k];
    assert P.SubmittedStrict(g.pools[i], s.pools[i], Handle(r, CopyOf(c.h.msg))).pool.lost == s.pools[i].lost;
  }

  lemma RestartLossless(g: Setup, s: State, w: Wal, p: nat)
    requires |g.workers| == |s.pools| && p < |s.pools|
    ensures NoLoss(s, Reborn(g, s, w, false), p)
  {
  }

  lemma WorkLoses(cfg: P.Config, pool: P.Pool<Handle>, ev: P.Event<Handle>)
    requires P.Enabled(cfg, pool, ev) && !ev.Submit? && !ev.SubmitStrict?
    ensures P.Apply(cfg, pool, ev).pool.lost
         == if ev.Reject? && !(cfg.mode.FallbackMode? && ev.io) then pool.lost + [pool.workers[ev.i].msg] else pool.lost
  {
  }

  lemma LosslessStep(g: Setup, s: State, ev: Event, p: nat)
    requires Enabled(g, s, ev) && Lossless(g, s, ev) && p < |s.pools|
    ensures NoLoss(s, Step(g, s, ev), p)
  {
    match ev
    case SubmitNext(t, r, io) => SubmitLoses(g, s, t, r, io, p);
    case Work(i, e) => WorkLoses(g.pools[i], s.pools[i], e);
    case StrictNext(r) => StrictLossless(g, s, r, p);
    case Restarted => RestartLossless(g, s, Restart(s.w.disk), p);
    case _ => assert Step(g, s, ev).pools == s.pools;
  }

  /** And no other step does without loss: in fallback mode a submit or a worker's step that is not lossless adds to
      the losses of its pool. */
  lemma LossyStep(g: Setup, s: State, ev: Event) returns (p: nat)
    requires Enabled(g, s, ev) && (ev.SubmitNext? || ev.Work?) && !Lossless(g, s, ev)
    requires forall i :: 0 <= i < |g.pools| ==> g.pools[i].mode.FallbackMode?
    ensures p < |s.pools| && !NoLoss(s, Step(g, s, ev), p)
  {
    match ev {
      case SubmitNext(t, r, io) =>
        p := FanOf(g, s.threads[t].h.msg)[s.threads[t].k];
        SubmitLoses(g, s, t, r, io, p);
      case Work(i, e) =>
        p := i;
        WorkLoses(g.pools[i], s.pools[i], e);
    }
  }

  lemma {:induction false} LosslessRunKeeps(g: Setup, s: State, evs: seq<Event>, p: nat)
    requires IsRun(g, s, evs) && LosslessRun(g, s, evs) && p < |s.pools|
    ensures NoLoss(s, Run(g, s, evs), p)
    decreases |evs|
  {
    if evs != [] {
      LosslessStep(g, s, evs[0], p);
      LosslessRunKeeps(g, Step(g, s, evs[0]), evs[1..], p);
    }
  }

  /** At-least-once, per sink, over every run in fallback mode with successful log writes: once `Dispatch`
      returned nil, every pool of the project has a copy queued, in flight or delivered, or the log has an
      entry for it in an undeleted segment. Identical messages are counted as often as they were sent. */
  lemma {:induction false} DeliveredAtLeastOnce(g: Setup, evs: seq<Event>, q: string, p: nat)
    requires Proper(g) && p < |g.pools| && Routed(g, q, p)
    requires IsRun(g, Init(g), evs) && LosslessRun(g, Init(g), evs)
    ensures var s := Run(g, Init(g), evs); var f := ByHandle(g.codec, q); p < |s.pools| && var pool := s.pools[p];
      Sum(s.acked, ByMessage(g.codec, q))
        <= Sum(pool.queue, f) + P.InFlight(pool, f) + Sum(pool.delivered, f) + InLog(g.codec, q, s.w)
  {
    EveryMessageAccounted(g, evs, q, p);
    LosslessRunKeeps(g, Init(g), evs, p);
    var s := Run(g, Init(g), evs);
    var f := ByHandle(g.codec, q);
    var pool := s.pools[p];
    var x := Sum(pool.queue, f) + P.InFlight(pool, f) + Sum(pool.delivered, f) + InLog(g.codec, q, s.w);
    assert x + multiset{} + multiset{} == x;
  }

  /** The same for the scanner the gateway configures. */
  lemma {:induction false} GatewayDelivers(g: Setup, evs: seq<Event>, q: string, p: nat)
    requires Configured(g) && p < |g.pools| && Routed(g, q, p)
    requires IsRun(g, Init(g), evs) && LosslessRun(g, Init(g), evs)
    ensures var s := Run(g, Init(g), evs); var f := ByHandle(g.codec, q); p < |s.pools| && var pool := s.pools[p];
      Sum(s.acked, ByMessage(g.codec, q))
        <= Sum(pool.queue, f) + P.InFlight(pool, f) + Sum(pool.delivered, f) + InLog(g.codec, q, s.w)
  {
    ConfiguredIsProper(g);
    DeliveredAtLeastOnce(g, evs, q, p);
  }

  /** After an orderly shutdown everything acknowledged was delivered or is in the closed log, on disk. */
  lemma {:induction false} OrderlyShutdown(g: Setup, evs: seq<Event>, q: string, p: nat)
    requires Proper(g) && p < |g.pools| && Routed(g, q, p)
    requires IsRun(g, Init(g), evs) && LosslessRun(g, Init(g), evs) && ShutDown(Run(g, Init(g), evs))
    ensures var s := Run(g, Init(g), evs); p < |s.pools| && var pool := s.pools[p];
      Sum(s.acked, ByMessage(g.codec, q))
        <= Sum(pool.delivered, ByHandle(g.codec, q)) + Sum(Upto(Reader(g.codec), s.w.disk, s.w.name), ByTag(g.codec, q))
  {
    DeliveredAtLeastOnce(g, evs, q, p);
    var s := Run(g, Init(g), evs);
    var f := ByHandle(g.codec, q);
    P.NewWorkers(s.pools[p].workers, f);
    var d, l := Sum(s.pools[p].delivered, f), InLog(g.codec, q, s.w);
    assert multiset{} + multiset{} + d + l == d + l;
  }
}
