/** WAL entries, the laws of their JSON encoding, and what survives of a framed file. */
module Codecs {
  import opened Bags
  import opened Framing

  /** A `json.RawMessage`: `None` is the nil slice. */
  type Data = Option<Bytes>

  datatype Entry = Entry(
    sequence: nat,
    project: string,
    router: string,
    data: Data,
    requestId: string,
    traceId: string,
    timestamp: int,
    env: string)

  /** The JSON codec as a parameter. `compact` is the text `json.Marshal` emits for a raw payload:
      insignificant white space removed, `null` for the nil slice. */
  datatype Codec = Codec(
    marshal: Entry -> Option<Bytes>,
    unmarshal: Bytes -> Option<Entry>,
    compact: Data -> Bytes)

  predicate Encodable(c: Codec, e: Entry) {
    c.marshal(e).Some?
  }

  /** What an entry looks like after one trip through the encoding. */
  function Normal(c: Codec, e: Entry): Entry {
    e.(data := Some(c.compact(e.data)))
  }

  /** No newline or carriage return occurs in an encoding: section 7 of RFC 8259 requires control
      characters inside strings to be escaped, and `json.Marshal` emits none outside strings. */
  ghost predicate OneLine(m: Bytes) {
    m != [] && NL !in m && CR !in m
  }

  ghost predicate NoPrefixDecodes(c: Codec, m: Bytes) {
    forall k :: 0 <= k < |m| ==> c.unmarshal(m[..k]) == None
  }

  ghost predicate LawfulAt(c: Codec, e: Entry) {
    c.marshal(e).Some? ==>
      && e.data != Some([])
      && OneLine(c.marshal(e).value)
      && c.unmarshal(c.marshal(e).value) == Some(Normal(c, e))
      && NoPrefixDecodes(c, c.marshal(e).value)
      && c.marshal(Normal(c, e)) == c.marshal(e)
  }

  ghost predicate Lawful(c: Codec) {
    && (forall e :: LawfulAt(c, e))
    && (forall d :: c.compact(d) != [] && c.compact(Some(c.compact(d))) == c.compact(d))
  }

  // ---------- decoding ----------

  /** `bufio.ScanLines` strips one trailing carriage return. */
  function DropCR(l: Bytes): Bytes {
    if l != [] && l[|l| - 1] == CR then l[..|l| - 1] else l
  }

  /** The loop body shared by `replaySegment` and `readSegment`: empty and corrupt lines are skipped. */
  function DecodeLine(c: Codec, l: Bytes): Option<Entry> {
    if DropCR(l) == [] then None else c.unmarshal(DropCR(l))
  }

  /** A record ended by CR LF reads like one ended by LF. */
  lemma CarriageReturnIgnored(c: Codec, e: Entry)
    requires Lawful(c) && Encodable(c, e)
    ensures DecodeLine(c, c.marshal(e).value + [CR]) == DecodeLine(c, c.marshal(e).value) == Some(Normal(c, e))
    ensures DecodeLine(c, [CR]) == DecodeLine(c, []) == None
  {
    assert LawfulAt(c, e);
    var m := c.marshal(e).value;
    assert (m + [CR])[..|m|] == m;
    assert m[|m| - 1] in m;
  }

  function Decode(c: Codec, ls: seq<Bytes>): (es: seq<Entry>)
    ensures |es| <= |ls|
  {
    if ls == [] then [] else
      match DecodeLine(c, ls[0])
      case None => Decode(c, ls[1..])
      case Some(e) => [e] + Decode(c, ls[1..])
  }

  lemma {:induction false} DecodeAppend(c: Codec, xs: seq<Bytes>, ys: seq<Bytes>)
    ensures Decode(c, xs + ys) == Decode(c, xs) + Decode(c, ys)
  {
    if xs == [] {
      assert xs + ys == ys;
    } else {
      assert (xs + ys)[1..] == xs[1..] + ys;
      DecodeAppend(c, xs[1..], ys);
    }
  }

  lemma DecodeOne(c: Codec, l: Bytes)
    ensures Decode(c, [l]) == match DecodeLine(c, l) case None => [] case Some(e) => [e]
  {
  }

  lemma DecodePush(c: Codec, ls: seq<Bytes>, l: Bytes)
    ensures Decode(c, ls + [l]) == Decode(c, ls) + match DecodeLine(c, l) case None => [] case Some(e) => [e]
  {
    DecodeAppend(c, ls, [l]);
    DecodeOne(c, l);
  }

  /** Every decodable entry of a file, in order. */
  function Entries(c: Codec, b: Bytes): seq<Entry> {
    Decode(c, Lines(b))
  }

  lemma EntriesAppend(c: Codec, a: Bytes, b: Bytes)
    requires Terminated(a)
    ensures Entries(c, a + b) == Entries(c, a) + Entries(c, b)
  {
    LinesAppend(a, b);
    DecodeAppend(c, Lines(a), Lines(b));
  }

  // ---------- encoding ----------

  function Record(c: Codec, e: Entry): Bytes
    requires Encodable(c, e)
  {
    c.marshal(e).value + [NL]
  }

  ghost predicate AllEncodable(c: Codec, es: seq<Entry>) {
    forall i :: 0 <= i < |es| ==> Encodable(c, es[i])
  }

  ghost function Frame(c: Codec, es: seq<Entry>): Bytes
    requires AllEncodable(c, es)
  {
    if es == [] then [] else Record(c, es[0]) + Frame(c, es[1..])
  }

  function Normals(c: Codec, es: seq<Entry>): (r: seq<Entry>)
    ensures |r| == |es| && forall i :: 0 <= i < |es| ==> r[i] == Normal(c, es[i])
  {
    seq(|es|, i requires 0 <= i < |es| => Normal(c, es[i]))
  }

  lemma {:induction false} FramePush(c: Codec, es: seq<Entry>, e: Entry)
    requires AllEncodable(c, es) && Encodable(c, e)
    ensures AllEncodable(c, es + [e])
    ensures Frame(c, es + [e]) == Frame(c, es) + Record(c, e)
  {
    if es == [] {
      assert [] + [e] == [e] && [e][1..] == [];
    } else {
      assert (es + [e])[1..] == es[1..] + [e];
      FramePush(c, es[1..], e);
    }
  }

  lemma {:induction false} FrameTerminated(c: Codec, es: seq<Entry>)
    requires AllEncodable(c, es)
    ensures Terminated(Frame(c, es))
  {
    if es != [] {
      FrameTerminated(c, es[1..]);
    }
  }

  lemma RecordEntries(c: Codec, e: Entry)
    requires Lawful(c) && Encodable(c, e)
    ensures Entries(c, Record(c, e)) == [Normal(c, e)]
  {
    assert LawfulAt(c, e);
    var m := c.marshal(e).value;
    LinesRecord(m);
    DecodeOne(c, m);
  }

  /** How many leading entries keep their whole encoding when only `k` bytes survive. */
  ghost function Survivors(c: Codec, es: seq<Entry>, k: nat): (n: nat)
    requires AllEncodable(c, es)
    ensures n <= |es|
  {
    if es == [] || k < |c.marshal(es[0]).value| then 0 else
      var len := |c.marshal(es[0]).value|;
      1 + Survivors(c, es[1..], if k > len then k - len - 1 else 0)
  }

  /** Independent reading of `Survivors`: entry `i` survives exactly when its last byte does. */
  lemma {:induction false} SurvivorsExact(c: Codec, es: seq<Entry>, k: nat, i: nat)
    requires Lawful(c) && AllEncodable(c, es) && i < |es|
    ensures i < Survivors(c, es, k) <==> |Frame(c, es[..i])| + |c.marshal(es[i]).value| <= k
    decreases i
  {
    assert LawfulAt(c, es[0]);
    var len := |c.marshal(es[0]).value|;
    if i == 0 {
      assert es[..0] == [];
    } else {
      assert es[..i][1..] == es[1..][..i - 1];
      assert es[..i][0] == es[0];
      assert LawfulAt(c, es[i]);
      var rest := if k > len then k - len - 1 else 0;
      SurvivorsExact(c, es[1..], rest, i - 1);
      assert |Frame(c, es[..i])| == len + 1 + |Frame(c, es[1..][..i - 1])|;
    }
  }

  /** A file cut at any byte decodes to exactly the entries whose whole encoding survived. */
  lemma {:induction false} TornFrame(c: Codec, es: seq<Entry>, k: nat)
    requires Lawful(c) && AllEncodable(c, es) && k <= |Frame(c, es)|
    ensures Entries(c, Frame(c, es)[..k]) == Normals(c, es[..Survivors(c, es, k)])
    decreases |es|
  {
    if es == [] {
    } else if k <= |c.marshal(es[0]).value| {
      TornInFirst(c, es, k);
    } else {
      var rest := k - |c.marshal(es[0]).value| - 1;
      TornFrame(c, es[1..], rest);
      TornBeyondFirst(c, es, k);
      SurvivorsBeyondFirst(c, es, k);
    }
  }

  lemma TornInFirst(c: Codec, es: seq<Entry>, k: nat)
    requires Lawful(c) && AllEncodable(c, es) && es != [] && k <= |c.marshal(es[0]).value|
    ensures Entries(c, Frame(c, es)[..k]) == Normals(c, es[..Survivors(c, es, k)])
  {
    var m := c.marshal(es[0]).value;
    assert Frame(c, es)[..k] == m[..k];
    TornRecord(c, es[0], k);
    SurvivorsOfNothing(c, es[1..]);
    if k == |m| {
      assert Survivors(c, es, k) == 1;
    }
  }

  lemma TornBeyondFirst(c: Codec, es: seq<Entry>, k: nat)
    requires Lawful(c) && AllEncodable(c, es) && es != []
    requires |c.marshal(es[0]).value| < k <= |Frame(c, es)|
    ensures Entries(c, Frame(c, es)[..k])
         == [Normal(c, es[0])] + Entries(c, Frame(c, es[1..])[..k - |c.marshal(es[0]).value| - 1])
  {
    var rest := k - |c.marshal(es[0]).value| - 1;
    var tail := Frame(c, es[1..]);
    assert Frame(c, es)[..k] == Record(c, es[0]) + tail[..rest];
    EntriesAppend(c, Record(c, es[0]), tail[..rest]);
    RecordEntries(c, es[0]);
  }

  lemma SurvivorsBeyondFirst(c: Codec, es: seq<Entry>, k: nat)
    requires AllEncodable(c, es) && es != [] && |c.marshal(es[0]).value| < k
    ensures var n := Survivors(c, es[1..], k - |c.marshal(es[0]).value| - 1);
      Normals(c, es[..Survivors(c, es, k)]) == [Normal(c, es[0])] + Normals(c, es[1..][..n])
  {
  }

  lemma SurvivorsOfNothing(c: Codec, es: seq<Entry>)
    requires Lawful(c) && AllEncodable(c, es)
    ensures Survivors(c, es, 0) == 0
  {
    if es != [] {
      assert LawfulAt(c, es[0]);
    }
  }

  /** A torn record alone: nothing unless the whole encoding is there, then the entry itself. */
  lemma TornRecord(c: Codec, e: Entry, k: nat)
    requires Lawful(c) && Encodable(c, e) && k <= |c.marshal(e).value|
    ensures Entries(c, c.marshal(e).value[..k]) == if k == |c.marshal(e).value| then [Normal(c, e)] else []
  {
    var m := c.marshal(e).value;
    assert LawfulAt(c, e);
    var t := m[..k];
    LinesRecord(t);
    if k == |m| {
      assert t == m;
    }
    if t != [] {
      assert t[|t| - 1] in m;
      DecodeOne(c, t);
    }
  }

  /** A whole file decodes to all its entries. */
  lemma FrameEntries(c: Codec, es: seq<Entry>)
    requires Lawful(c) && AllEncodable(c, es)
    ensures Entries(c, Frame(c, es)) == Normals(c, es)
  {
    var k := |Frame(c, es)|;
    TornFrame(c, es, k);
    assert Frame(c, es)[..k] == Frame(c, es);
    SurvivorsOfAll(c, es);
    assert es[..|es|] == es;
  }

  lemma {:induction false} SurvivorsOfAll(c: Codec, es: seq<Entry>)
    requires Lawful(c) && AllEncodable(c, es)
    ensures Survivors(c, es, |Frame(c, es)|) == |es|
  {
    if es != [] {
      assert LawfulAt(c, es[0]);
      SurvivorsOfAll(c, es[1..]);
    }
  }

  /** Re-encoding decoded entries gives the same bytes. */
  lemma {:induction false} FrameNormals(c: Codec, es: seq<Entry>)
    requires Lawful(c) && AllEncodable(c, es)
    ensures AllEncodable(c, Normals(c, es)) && Frame(c, Normals(c, es)) == Frame(c, es)
  {
    assert forall i :: 0 <= i < |es| ==> LawfulAt(c, es[i]);
    if es != [] {
      FrameNormals(c, es[1..]);
      assert Normals(c, es)[1..] == Normals(c, es[1..]);
    }
  }
}
