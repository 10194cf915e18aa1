/** Background replay: reading sealed segments while writers keep writing and rotating. */
module Replay {
  import opened Framing
  import opened Codecs
  import opened WalLog

  // ---------- one segment, one cycle: the loops ----------

  ghost predicate AllTaken(whole: bool, all: seq<Entry>, fn: nat -> bool) {
    whole && forall i :: 0 <= i < |all| ==> fn(i)
  }

  /** A whole pass over a file succeeds: no line is too long and every decodable entry is accepted. */
  ghost predicate Passes(c: Codec, cap: nat, b: Bytes, fn: nat -> bool) {
    AllTaken(!ScanFile(b, cap).tooLong, Entries(c, b), fn)
  }

  /** One line further. */
  lemma DecodeNext(c: Codec, ls: seq<Bytes>, i: nat, calls: seq<Entry>)
    requires i < |ls|
    ensures calls + Decode(c, ls[i..])
         == (calls + (match DecodeLine(c, ls[i]) case None => [] case Some(e) => [e])) + Decode(c, ls[i + 1..])
  {
  }

  /** The scan loop of `replaySegment` over the lines the scanner delivers. */
  method ReplayLines(c: Codec, ls: seq<Bytes>, fn: nat -> bool)
    returns (count: nat, ok: bool, calls: seq<Entry>)
    ensures Replayed(calls, ok) == Taken(Decode(c, ls), true, fn) && |calls| == count + if ok then 0 else 1
    ensures forall i :: 0 <= i < count ==> fn(i)
  {
    count, calls := 0, [];
    var i := 0;
    assert ls[0..] == ls;
    while i < |ls|
      invariant i <= |ls| && count == |calls|
      invariant Decode(c, ls) == calls + Decode(c, ls[i..])
      invariant forall j :: 0 <= j < count ==> fn(j)
    {
      var line := DecodeLine(c, ls[i]);
      DecodeNext(c, ls, i, calls);
      i := i + 1;
      if line.Some? {
        calls := calls + [line.value];
        if !fn(count) {
          TakenIs(Decode(c, ls), count, false, calls, fn);
          return count, false, calls;
        }
        count := count + 1;
      }
    }
    assert Decode(c, ls[i..]) == [];
    ok := true;
    TakenIs(Decode(c, ls), count, ok, calls, fn);
  }

  /** What the loop has in hand when it stops is what the function says. */
  lemma TakenIs(es: seq<Entry>, count: nat, ok: bool, calls: seq<Entry>, fn: nat -> bool)
    requires calls <= es && forall i :: 0 <= i < count ==> fn(i)
    requires if ok then calls == es && count == |calls| else |calls| == count + 1 && !fn(count)
    ensures Replayed(calls, ok) == Taken(es, true, fn)
  {
  }

  /** `replaySegment`: `fn(i)` is what the callback answers to its i-th call. */
  method ReplaySegment(c: Codec, cap: nat, b: Bytes, fn: nat -> bool)
    returns (count: nat, ok: bool, calls: seq<Entry>)
    ensures Replayed(calls, ok) == ReplayOf(c, cap, b, fn)
    ensures ok <==> Passes(c, cap, b, fn)
    ensures if ok then calls == Entries(c, b) && count == |calls| else Halts(c, cap, b, fn, calls)
    ensures count <= |calls| <= count + 1 && (|calls| == count + 1 ==> !ok && !fn(count))
    ensures forall i :: 0 <= i < count ==> fn(i)
  {
    var scan := ScanFile(b, cap);
    count, ok, calls := ReplayLines(c, scan.lines, fn);
    ok := ok && !scan.tooLong;
    ReplayOfMeans(c, cap, b, fn);
  }

  predicate StrictlyAscending(s: seq<nat>) {
    forall i, j :: 0 <= i < j < |s| ==> s[i] < s[j]
  }

  ghost predicate Lists(s: seq<nat>, nums: set<nat>) {
    && StrictlyAscending(s)
    && (forall i :: 0 <= i < |s| ==> s[i] in nums)
    && (forall n :: n in nums ==> n in s)
  }

  lemma LeastExists(s: set<nat>) returns (m: nat)
    requires s != {}
    ensures m in s && forall n :: n in s ==> m <= n
  {
    m :| m in s;
    if s != {m} {
      var k := LeastExists(s - {m});
      assert forall n :: n in s ==> n == m || n in s - {m};
      m := if k < m then k else m;
    }
  }

  /** The numbers of a directory, sorted. */
  method ListNumbers(nums: set<nat>) returns (list: seq<nat>)
    ensures Lists(list, nums)
  {
    list := [];
    var rest := nums;
    while rest != {}
      invariant rest <= nums
      invariant Lists(list, nums - rest)
      invariant forall n, m :: n in list && m in rest ==> n < m
      decreases rest
    {
      ghost var least := LeastExists(rest);
      var m :| m in rest && forall n :: n in rest ==> m <= n;
      list := list + [m];
      rest := rest - {m};
    }
  }

  /** The directory listing without the active name, sorted by number. */
  method ListSealed(nums: set<nat>, active: nat) returns (list: seq<nat>)
    ensures Lists(list, nums - {active})
  {
    list := ListNumbers(nums - {active});
  }

  // ---------- a listing and the queue ----------

  /** The number listed before position `i`, if any. */
  function Before(list: seq<nat>, i: nat): nat
    requires i <= |list|
  {
    if i == 0 then 0 else list[i - 1]
  }

  lemma NoneBetween(list: seq<nat>, nums: set<nat>, i: nat)
    requires Lists(list, nums) && i < |list|
    ensures Before(list, i) < list[i] || 0 in nums
    ensures forall n :: n in nums ==> n <= Before(list, i) || list[i] <= n
  {
  }

  /** No file between two numbers, no entries between them. */
  lemma {:induction false} UptoGap(read: Contents, f: map<nat, Bytes>, m: nat, n: nat)
    requires m <= n && forall i :: m < i <= n ==> i !in f
    ensures Upto(read, f, n) == Upto(read, f, m)
    decreases n
  {
    if m < n {
      UptoGap(read, f, m, n - 1);
    }
  }

  /** The entries of the first `k` listed segments, each with its number. */
  function Listed(read: Contents, files: map<nat, Bytes>, list: seq<nat>, k: nat): seq<(nat, Entry)>
    requires k <= |list|
  {
    if k == 0 then [] else Listed(read, files, list, k - 1) + Block(read, files, list[k - 1])
  }

  /** The queue below segment `n`. */
  function Below(read: Contents, files: map<nat, Bytes>, n: nat): seq<(nat, Entry)> {
    if n == 0 then [] else Upto(read, files, n - 1)
  }

  /** A listing of all files but the active one, which has the highest number. */
  ghost predicate Sealing(list: seq<nat>, files: map<nat, Bytes>, active: nat) {
    && Lists(list, files.Keys - {active}) && 0 !in files
    && (forall n :: n in files ==> n <= active)
  }

  lemma NoFileBetween(files: map<nat, Bytes>, list: seq<nat>, active: nat, k: nat)
    requires Sealing(list, files, active) && k < |list|
    ensures Before(list, k) < list[k] < active && list[k] in files
    ensures forall n :: Before(list, k) < n < list[k] ==> n !in files
  {
    assert list[k] in files.Keys - {active};
    NoneBetween(list, files.Keys - {active}, k);
    forall n | n in files ensures n <= Before(list, k) || list[k] <= n {
      if n != active {
        assert n in files.Keys - {active};
      }
    }
  }

  lemma {:induction false} ListedUpto(read: Contents, files: map<nat, Bytes>, list: seq<nat>, active: nat, k: nat)
    requires Sealing(list, files, active) && k <= |list|
    ensures Listed(read, files, list, k) == Upto(read, files, Before(list, k))
  {
    if k != 0 {
      ListedUpto(read, files, list, active, k - 1);
      NoFileBetween(files, list, active, k - 1);
      UptoGap(read, files, Before(list, k - 1), list[k - 1] - 1);
    }
  }

  /** Going through a listing is going through the queue: up to the next segment, or up to the active one. */
  lemma ListedBelow(read: Contents, files: map<nat, Bytes>, list: seq<nat>, active: nat, k: nat)
    requires Sealing(list, files, active) && k <= |list|
    ensures Listed(read, files, list, k) == Below(read, files, if k < |list| then list[k] else active)
  {
    ListedUpto(read, files, list, active, k);
    if k < |list| {
      NoFileBetween(files, list, active, k);
      UptoGap(read, files, Before(list, k), list[k] - 1);
    } else if active != 0 {
      LastListed(list, files, active);
      UptoGap(read, files, Before(list, k), active - 1);
    }
  }

  lemma LastListed(list: seq<nat>, files: map<nat, Bytes>, active: nat)
    requires Sealing(list, files, active) && active != 0
    ensures Before(list, |list|) < active && forall n :: Before(list, |list|) < n < active ==> n !in files
  {
    forall n | n in files && n != active ensures n <= Before(list, |list|) {
      assert n in files.Keys - {active};
      var j :| 0 <= j < |list| && list[j] == n;
    }
    assert list != [] ==> list[|list| - 1] in files.Keys - {active};
  }

  /** What is left of the files once those replayed, as far as they can be removed, are gone. */
  function Left(disk: map<nat, Bytes>, gone: seq<nat>, removable: nat -> bool): map<nat, Bytes> {
    map n | n in disk && (n in gone ==> !removable(n)) :: disk[n]
  }

  lemma LeftNext(disk: map<nat, Bytes>, list: seq<nat>, k: nat, removable: nat -> bool)
    requires StrictlyAscending(list) && k < |list| && list[k] in disk
    ensures list[k] in Left(disk, list[..k], removable)
    ensures Left(disk, list[..k + 1], removable)
         == if removable(list[k]) then Left(disk, list[..k], removable) - {list[k]}
            else Left(disk, list[..k], removable)
  {
    assert list[..k + 1] == list[..k] + [list[k]];
  }

  /** What a replay of one segment comes to: the calls made, and whether it got to the end. */
  datatype Replayed = Replayed(calls: seq<Entry>, ok: bool)

  /** A replay that does not get to the end of a file: the callback refused the last call, or the scanner gave up
      after the last line it delivered. */
  ghost predicate Halts(c: Codec, cap: nat, b: Bytes, fn: nat -> bool, part: seq<Entry>) {
    HaltsIn(Decode(c, ScanFile(b, cap).lines), !ScanFile(b, cap).tooLong, Entries(c, b), fn, part)
  }

  ghost predicate HaltsIn(es: seq<Entry>, whole: bool, all: seq<Entry>, fn: nat -> bool, part: seq<Entry>) {
    && part <= all && (forall i :: 0 <= i < |part| - 1 ==> fn(i))
    && ((part != [] && !fn(|part| - 1)) || (!whole && part == es && (part != [] ==> fn(|part| - 1))))
  }

  /** The first call refused, if any. */
  function Refused(fn: nat -> bool, n: nat): (k: nat)
    ensures k <= n && (k < n ==> !fn(k)) && forall i :: 0 <= i < k ==> fn(i)
  {
    if n == 0 then 0 else
      var k := Refused(fn, n - 1);
      if k < n - 1 then k else if fn(n - 1) then n else n - 1
  }

  /** Entries handed over one by one, up to and including the first one refused. */
  function Taken(es: seq<Entry>, whole: bool, fn: nat -> bool): Replayed {
    var k := Refused(fn, |es|);
    if k < |es| then Replayed(es[..k + 1], false) else Replayed(es, whole)
  }

  lemma TakenMeans(es: seq<Entry>, all: seq<Entry>, whole: bool, fn: nat -> bool)
    requires es <= all && (whole ==> es == all)
    ensures var r := Taken(es, whole, fn);
      (r.ok <==> AllTaken(whole, all, fn)) && (if r.ok then r.calls == all else HaltsIn(es, whole, all, fn, r.calls))
  {
  }

  /** `replaySegment` as a function. */
  function ReplayOf(c: Codec, cap: nat, b: Bytes, fn: nat -> bool): Replayed {
    Taken(Decode(c, ScanFile(b, cap).lines), !ScanFile(b, cap).tooLong, fn)
  }

  /** What the function means. */
  lemma ReplayOfMeans(c: Codec, cap: nat, b: Bytes, fn: nat -> bool)
    ensures var r := ReplayOf(c, cap, b, fn);
      && (r.ok <==> Passes(c, cap, b, fn))
      && (if r.ok then r.calls == Entries(c, b) else Halts(c, cap, b, fn, r.calls))
  {
    ScanDecodes(c, cap, b);
    TakenMeans(Decode(c, ScanFile(b, cap).lines), Entries(c, b), !ScanFile(b, cap).tooLong, fn);
  }

  lemma ScanDecodes(c: Codec, cap: nat, b: Bytes)
    ensures var scan := ScanFile(b, cap);
      Decode(c, scan.lines) <= Entries(c, b) && (!scan.tooLong ==> Decode(c, scan.lines) == Entries(c, b))
  {
    var scan := ScanFile(b, cap);
    var cut := Lines(b)[|scan.lines|..];
    assert Lines(b) == scan.lines + cut;
    DecodeAppend(c, scan.lines, cut);
  }

  // ---------- one cycle ----------

  ghost predicate AllPass(run: nat -> Replayed, list: seq<nat>, k: nat) {
    k <= |list| && forall i :: 0 <= i < k ==> run(list[i]).ok
  }

  /** What the first `k` listed segments hand to the callback. */
  function Handed(run: nat -> Replayed, list: seq<nat>, k: nat): seq<(nat, Entry)>
    requires k <= |list|
  {
    if k == 0 then [] else Handed(run, list, k - 1) + Tag(list[k - 1], run(list[k - 1]).calls)
  }

  /** `replaySealedSegments` without interference: `run(n)` is what replaying segment `n` comes to, `removable(n)`
      whether its file can be removed. `calls` is what the callback is given, in order. */
  method ReplayCycle(run: nat -> Replayed, disk: map<nat, Bytes>, active: nat, removable: nat -> bool)
    returns (after: map<nat, Bytes>, list: seq<nat>, done: nat, calls: seq<(nat, Entry)>)
    ensures Lists(list, disk.Keys - {active}) && done <= |list|
    // every segment before `done` was replayed to the end; it is gone exactly when it could be removed
    ensures AllPass(run, list, done) && after == Left(disk, list[..done], removable)
    // the cycle stops at the first failing segment, having handed over what that one came to
    ensures done < |list| ==> !run(list[done]).ok && calls == Handed(run, list, done + 1)
    ensures done == |list| ==> calls == Handed(run, list, done)
    // the active segment is not touched
    ensures active in disk ==> active in after && after[active] == disk[active]
  {
    list := ListSealed(disk.Keys, active);
    after, done, calls := disk, 0, [];
    assert after == Left(disk, list[..0], removable);
    while done < |list|
      invariant done <= |list| && AllPass(run, list, done)
      invariant after == Left(disk, list[..done], removable)
      invariant calls == Handed(run, list, done)
    {
      var n := list[done];
      var r := run(n);
      calls := calls + Tag(n, r.calls);
      if !r.ok {
        break;
      }
      LeftNext(disk, list, done, removable);
      if removable(n) {
        after := after - {n};
      }
      done := done + 1;
    }
    assert active !in list[..done] by {
      assert forall i :: 0 <= i < |list| ==> list[i] in disk.Keys - {active};
    }
  }

  /** Segments replayed to their end hand over the queue. */
  lemma {:induction false} HandedIsListed(run: nat -> Replayed, read: Contents, files: map<nat, Bytes>,
                                          list: seq<nat>, k: nat)
    requires k <= |list| && forall i :: 0 <= i < k ==> list[i] in files && run(list[i]).calls == read(files[list[i]])
    ensures Handed(run, list, k) == Listed(read, files, list, k)
  {
    if k != 0 {
      HandedIsListed(run, read, files, list, k - 1);
    }
  }

  /** The segments of a directory, replayed one by one with the callback's answers `fn`. */
  function RunOver(c: Codec, cap: nat, disk: map<nat, Bytes>, fn: nat -> nat -> bool): nat -> Replayed {
    n => if n in disk then ReplayOf(c, cap, disk[n], fn(n)) else Replayed([], false)
  }

  lemma RunOverMeans(c: Codec, cap: nat, disk: map<nat, Bytes>, fn: nat -> nat -> bool, n: nat)
    requires n in disk
    ensures var r := RunOver(c, cap, disk, fn)(n);
      && (r.ok <==> Passes(c, cap, disk[n], fn(n)))
      && (if r.ok then r.calls == Reader(c)(disk[n]) else Halts(c, cap, disk[n], fn(n), r.calls))
  {
    ReplayOfMeans(c, cap, disk[n], fn(n));
  }

  /** What a cycle hands over is the queue below the segment it stopped at and that segment's part; after a whole
      cycle, the queue below the active segment. */
  lemma CycleHandsQueue(c: Codec, cap: nat, disk: map<nat, Bytes>, fn: nat -> nat -> bool, list: seq<nat>,
                        active: nat, done: nat)
    requires Sealing(list, disk, active) && AllPass(RunOver(c, cap, disk, fn), list, done)
    ensures var run := RunOver(c, cap, disk, fn);
      && (done == |list| ==> Handed(run, list, done) == Below(Reader(c), disk, active))
      && (done < |list| ==>
            && list[done] in disk
            && Handed(run, list, done + 1)
                 == Below(Reader(c), disk, list[done]) + Tag(list[done], run(list[done]).calls))
  {
    var run, read := RunOver(c, cap, disk, fn), Reader(c);
    forall i | 0 <= i < done ensures list[i] in disk && run(list[i]).calls == read(disk[list[i]]) {
      assert list[i] in disk.Keys - {active};
      RunOverMeans(c, cap, disk, fn, list[i]);
    }
    HandedIsListed(run, read, disk, list, done);
    ListedBelow(read, disk, list, active, done);
    if done < |list| {
      assert list[done] in disk.Keys - {active};
    }
  }
}
