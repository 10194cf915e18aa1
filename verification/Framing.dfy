/** Newline framing of WAL segments: what `bufio.Scanner` makes of a byte string. */
module Framing {

  type Byte = b: int | 0 <= b < 256
  type Bytes = seq<Byte>

  const NL: Byte := 10
  const CR: Byte := 13

  /** Position of the first newline, or the length when there is none. */
  function IndexNL(b: Bytes): (i: nat)
    ensures i <= |b| && (i < |b| ==> b[i] == NL)
    ensures forall j :: 0 <= j < i ==> b[j] != NL
  {
    if b == [] || b[0] == NL then 0 else
      var i := IndexNL(b[1..]);
      assert forall j :: 1 <= j < i + 1 ==> b[j] == b[1..][j - 1];
      i + 1
  }

  /** The raw tokens of `bufio.ScanLines`: a last line without newline counts when it is non-empty. */
  function Lines(b: Bytes): (ls: seq<Bytes>) {
    if b == [] then [] else
      var i := IndexNL(b);
      if i == |b| then [b] else [b[..i]] + Lines(b[i + 1..])
  }

  predicate Terminated(b: Bytes) {
    b == [] || b[|b| - 1] == NL
  }

  lemma IndexNLUnique(b: Bytes, i: nat)
    requires i <= |b| && (i < |b| ==> b[i] == NL)
    requires forall j :: 0 <= j < i ==> b[j] != NL
    ensures IndexNL(b) == i
  {
  }

  /** Line splitting distributes over concatenation when the left part is complete. */
  lemma {:induction false} LinesAppend(a: Bytes, b: Bytes)
    requires Terminated(a)
    ensures Lines(a + b) == Lines(a) + Lines(b)
    decreases |a|
  {
    if a == [] {
      assert a + b == b;
    } else {
      var i := IndexNL(a);
      assert i < |a|;
      var ab := a + b;
      IndexNLUnique(ab, i);
      assert ab[..i] == a[..i];
      assert ab[i + 1..] == a[i + 1..] + b;
      assert Terminated(a[i + 1..]);
      LinesAppend(a[i + 1..], b);
      assert [a[..i]] + (Lines(a[i + 1..]) + Lines(b)) == ([a[..i]] + Lines(a[i + 1..])) + Lines(b);
    }
  }

  /** Otherwise the last line of the left part and the first of the right part become one. */
  lemma {:induction false} LinesMerge(a: Bytes, b: Bytes)
    requires !Terminated(a) && b != []
    ensures |Lines(a + b)| == |Lines(a)| + |Lines(b)| - 1
    decreases |a|
  {
    var i, ab := IndexNL(a), a + b;
    if i == |a| {
      OneLineMerges(a, b);
    } else {
      IndexNLUnique(ab, i);
      assert ab[i + 1..] == a[i + 1..] + b;
      LinesMerge(a[i + 1..], b);
    }
  }

  lemma OneLineMerges(a: Bytes, b: Bytes)
    requires a != [] && b != [] && IndexNL(a) == |a|
    ensures |Lines(a + b)| == |Lines(b)| && |Lines(a)| == 1
  {
    var j, ab := IndexNL(b), a + b;
    IndexNLUnique(ab, |a| + j);
    if j < |b| {
      assert ab[|a| + j + 1..] == b[j + 1..];
    }
  }

  /** So a torn tail must not be appended to: splitting distributes exactly when the left part is complete or nothing
      follows. */
  lemma LinesAppendExactly(a: Bytes, b: Bytes)
    ensures Lines(a + b) == Lines(a) + Lines(b) <==> Terminated(a) || b == []
  {
    if Terminated(a) {
      LinesAppend(a, b);
    } else if b == [] {
      assert a + b == a;
    } else {
      LinesMerge(a, b);
    }
  }

  lemma LinesRecord(m: Bytes)
    requires NL !in m
    ensures Lines(m + [NL]) == [m]
    ensures Lines(m) == if m == [] then [] else [m]
  {
    IndexNLUnique(m + [NL], |m|);
    assert (m + [NL])[..|m|] == m;
    assert (m + [NL])[|m| + 1..] == [];
    IndexNLUnique(m, |m|);
  }

  // ---------- the scanner's buffer limit ----------

  const INITIAL_BUFFER: nat := 65536
  const HARD_REPLAY_LINE_CAP: nat := 67108864

  function MaxReplayLineBytes(maxSegment: int): (r: nat)
    ensures 0 < r <= HARD_REPLAY_LINE_CAP
    ensures if 0 < maxSegment <= HARD_REPLAY_LINE_CAP then r == maxSegment else r == HARD_REPLAY_LINE_CAP
  {
    if 0 < maxSegment < HARD_REPLAY_LINE_CAP then maxSegment else HARD_REPLAY_LINE_CAP
  }

  /** The scanner gives up once its buffer, the larger of the initial 64 KiB and the configured
      maximum, is full without a line end in it. */
  function ScanCap(maxToken: nat): (r: nat)
    ensures r >= maxToken && r >= INITIAL_BUFFER && (r == maxToken || r == INITIAL_BUFFER)
  {
    if maxToken < INITIAL_BUFFER then INITIAL_BUFFER else maxToken
  }

  datatype Scan = Scan(lines: seq<Bytes>, tooLong: bool)

  function Fitting(ls: seq<Bytes>, cap: nat): (r: Scan)
    ensures r.lines <= ls
    ensures !r.tooLong <==> forall i :: 0 <= i < |ls| ==> |ls[i]| < cap
    ensures !r.tooLong ==> r.lines == ls
    ensures r.tooLong ==> |r.lines| < |ls| && |ls[|r.lines|]| >= cap
  {
    if ls == [] then Scan([], false)
    else if |ls[0]| >= cap then Scan([], true)
    else
      var rest := Fitting(ls[1..], cap);
      assert ls == [ls[0]] + ls[1..];
      assert forall i :: 1 <= i < |ls| ==> ls[i] == ls[1..][i - 1];
      Scan([ls[0]] + rest.lines, rest.tooLong)
  }

  /** All lines a scanner with buffer limit `cap` delivers from `b`, and whether it stopped early. */
  function ScanFile(b: Bytes, cap: nat): (r: Scan) {
    Fitting(Lines(b), cap)
  }
}
