/** A small concrete codec: the laws assumed of the JSON encoding are consistent. Numbers are written in unary, every
    field delimits itself, and payloads lose their white space. */
module UnaryCodec {
  import opened Bags
  import opened Framing
  import opened Codecs

  const MARK: Byte := 1
  const END: Byte := 2
  const NULL: Bytes := [110, 117, 108, 108]

  // ---------- payloads ----------

  predicate Blank(b: Byte) {
    b == 9 || b == NL || b == CR || b == 32
  }

  function Strip(b: Bytes): Bytes {
    if b == [] then [] else (if Blank(b[0]) then [] else [b[0]]) + Strip(b[1..])
  }

  lemma {:induction false} StripTwice(b: Bytes)
    ensures Strip(Strip(b)) == Strip(b)
  {
    if b != [] {
      StripTwice(b[1..]);
      if Blank(b[0]) {
        assert Strip(b) == Strip(b[1..]);
      } else {
        assert Strip(b) == [b[0]] + Strip(b[1..]) && Strip(b)[1..] == Strip(b[1..]);
      }
    }
  }

  function Compact(d: Data): Bytes {
    if d.None? || Strip(d.value) == [] then NULL else Strip(d.value)
  }

  lemma CompactTwice(d: Data)
    ensures Compact(d) != [] && Compact(Some(Compact(d))) == Compact(d)
  {
    if d.Some? {
      StripTwice(d.value);
    }
    assert Strip(NULL) == NULL by {
      assert NULL[1..] == [117, 108, 108] && NULL[1..][1..] == [108, 108] && NULL[1..][1..][1..] == [108];
      assert NULL[1..][1..][1..][1..] == [];
    }
  }

  // ---------- self-delimiting pieces ----------

  function Unary(n: nat): Bytes {
    if n == 0 then [END] else [MARK] + Unary(n - 1)
  }

  function Many(xs: seq<nat>): Bytes {
    if xs == [] then [] else Unary(xs[0]) + Many(xs[1..])
  }

  function Text(xs: seq<nat>): Bytes {
    Unary(|xs|) + Many(xs)
  }

  function Chars(s: string): (r: seq<nat>)
    ensures |r| == |s|
  {
    seq(|s|, i requires 0 <= i < |s| => s[i] as int)
  }

  function Sign(t: int): nat {
    if t < 0 then 1 else 0
  }

  function Size(t: int): nat {
    if t < 0 then -t else t
  }

  lemma {:induction false} UnarySplit(m: nat, n: nat, r: Bytes, s: Bytes)
    requires Unary(m) + r == Unary(n) + s
    ensures m == n && r == s
  {
    var a, b := Unary(m) + r, Unary(n) + s;
    if m == 0 || n == 0 {
      assert a[0] == Unary(m)[0] && b[0] == Unary(n)[0];
      assert m == 0 ==> a[1..] == r;
      assert n == 0 ==> b[1..] == s;
    } else {
      assert a[1..] == Unary(m - 1) + r && b[1..] == Unary(n - 1) + s;
      UnarySplit(m - 1, n - 1, r, s);
    }
  }

  lemma {:induction false} ManySplit(xs: seq<nat>, ys: seq<nat>, r: Bytes, s: Bytes)
    requires |xs| == |ys| && Many(xs) + r == Many(ys) + s
    ensures xs == ys && r == s
  {
    if xs != [] {
      assert Many(xs) + r == Unary(xs[0]) + (Many(xs[1..]) + r);
      assert Many(ys) + s == Unary(ys[0]) + (Many(ys[1..]) + s);
      UnarySplit(xs[0], ys[0], Many(xs[1..]) + r, Many(ys[1..]) + s);
      ManySplit(xs[1..], ys[1..], r, s);
    } else {
      assert Many(xs) + r == r && Many(ys) + s == s;
    }
  }

  lemma TextSplit(xs: seq<nat>, ys: seq<nat>, r: Bytes, s: Bytes)
    requires Text(xs) + r == Text(ys) + s
    ensures xs == ys && r == s
  {
    assert Text(xs) + r == Unary(|xs|) + (Many(xs) + r);
    assert Text(ys) + s == Unary(|ys|) + (Many(ys) + s);
    UnarySplit(|xs|, |ys|, Many(xs) + r, Many(ys) + s);
    ManySplit(xs, ys, r, s);
  }

  lemma CharsUnique(s: string, t: string)
    requires Chars(s) == Chars(t)
    ensures s == t
  {
    assert |s| == |t|;
    forall i | 0 <= i < |s| ensures s[i] == t[i] {
      assert Chars(s)[i] == Chars(t)[i];
    }
  }

  // ---------- entries ----------

  /** An entry as a list of lists of numbers. */
  function Fields(e: Entry): seq<seq<nat>> {
    [[e.sequence], Chars(e.project), Chars(e.router), Compact(e.data), Chars(e.requestId), Chars(e.traceId),
     [Sign(e.timestamp), Size(e.timestamp)], Chars(e.env)]
  }

  function Texts(fs: seq<seq<nat>>): Bytes {
    if fs == [] then [] else Text(fs[0]) + Texts(fs[1..])
  }

  lemma {:induction false} TextsSplit(fs: seq<seq<nat>>, gs: seq<seq<nat>>, r: Bytes, s: Bytes)
    requires |fs| == |gs| && Texts(fs) + r == Texts(gs) + s
    ensures fs == gs && r == s
  {
    if fs != [] {
      assert Texts(fs) + r == Text(fs[0]) + (Texts(fs[1..]) + r);
      assert Texts(gs) + s == Text(gs[0]) + (Texts(gs[1..]) + s);
      TextSplit(fs[0], gs[0], Texts(fs[1..]) + r, Texts(gs[1..]) + s);
      TextsSplit(fs[1..], gs[1..], r, s);
    } else {
      assert Texts(fs) + r == r && Texts(gs) + s == s;
    }
  }

  function Encode(e: Entry): Bytes {
    Texts(Fields(e))
  }

  /** Equal fields, equal entries up to white space in the payload. */
  lemma FieldsUnique(e: Entry, f: Entry)
    requires Fields(e) == Fields(f)
    ensures e.(data := Some(Compact(e.data))) == f.(data := Some(Compact(f.data)))
  {
    var x, y := Fields(e), Fields(f);
    assert x[0][0] == y[0][0];
    assert x[1] == y[1] && x[2] == y[2] && x[3] == y[3] && x[4] == y[4] && x[5] == y[5] && x[7] == y[7];
    CharsUnique(e.project, f.project);
    CharsUnique(e.router, f.router);
    CharsUnique(e.requestId, f.requestId);
    CharsUnique(e.traceId, f.traceId);
    CharsUnique(e.env, f.env);
    assert x[6][0] == y[6][0] && x[6][1] == y[6][1];
  }

  /** One encoding continues another only if it is the same. */
  lemma EncodeSplit(e: Entry, f: Entry, r: Bytes)
    requires Encode(e) + r == Encode(f)
    ensures r == [] && e.(data := Some(Compact(e.data))) == f.(data := Some(Compact(f.data)))
  {
    assert Encode(f) + [] == Encode(f);
    TextsSplit(Fields(e), Fields(f), r, []);
    FieldsUnique(e, f);
  }

  predicate Plain(b: Bytes) {
    forall i :: 0 <= i < |b| ==> b[i] == MARK || b[i] == END
  }

  lemma {:induction false} UnaryPlain(n: nat)
    ensures Plain(Unary(n)) && Unary(n) != []
  {
    if n != 0 {
      UnaryPlain(n - 1);
    }
  }

  lemma {:induction false} ManyPlain(xs: seq<nat>)
    ensures Plain(Many(xs))
  {
    if xs != [] {
      UnaryPlain(xs[0]);
      ManyPlain(xs[1..]);
    }
  }

  lemma {:induction false} TextsPlain(fs: seq<seq<nat>>)
    ensures Plain(Texts(fs)) && (fs != [] ==> Texts(fs) != [])
  {
    if fs != [] {
      UnaryPlain(|fs[0]|);
      ManyPlain(fs[0]);
      TextsPlain(fs[1..]);
    }
  }

  // ---------- the codec ----------

  function Marshal(e: Entry): Option<Bytes> {
    if e.data == Some([]) then None else Some(Encode(e))
  }

  ghost predicate Encodes(b: Bytes, e: Entry) {
    Marshal(e) == Some(b)
  }

  /** The inverse of the encoding: no text but an encoding decodes. */
  ghost function Unmarshal(b: Bytes): Option<Entry> {
    if exists e :: Encodes(b, e) then
      var e :| Encodes(b, e);
      Some(e.(data := Some(Compact(e.data))))
    else None
  }

  ghost function UNARY(): Codec {
    Codec(Marshal, (b: Bytes) => Unmarshal(b), Compact)
  }

  lemma EncodesUnique(b: Bytes, e: Entry, f: Entry)
    requires Encodes(b, e) && Encodes(b, f)
    ensures e.(data := Some(Compact(e.data))) == f.(data := Some(Compact(f.data)))
  {
    assert Encode(e) + [] == Encode(e);
    EncodeSplit(e, f, []);
  }

  lemma RoundTrips(e: Entry)
    requires Marshal(e).Some?
    ensures Unmarshal(Encode(e)) == Some(e.(data := Some(Compact(e.data))))
  {
    var b := Encode(e);
    assert Encodes(b, e);
    forall f | Encodes(b, f) ensures f.(data := Some(Compact(f.data))) == e.(data := Some(Compact(e.data))) {
      EncodesUnique(b, f, e);
    }
  }

  lemma NoPrefix(e: Entry, k: nat)
    requires k < |Encode(e)|
    ensures Unmarshal(Encode(e)[..k]) == None
  {
    var b := Encode(e)[..k];
    forall f ensures !Encodes(b, f) {
      if Encodes(b, f) {
        assert Encode(f) + Encode(e)[k..] == Encode(e);
        EncodeSplit(f, e, Encode(e)[k..]);
        assert false;
      }
    }
  }

  lemma UnaryLawfulAt(e: Entry)
    ensures LawfulAt(UNARY(), e)
  {
    var c := UNARY();
    if c.marshal(e).Some? {
      var m := Encode(e);
      TextsPlain(Fields(e));
      RoundTrips(e);
      forall k | 0 <= k < |m| ensures c.unmarshal(m[..k]) == None {
        NoPrefix(e, k);
      }
      CompactTwice(e.data);
      assert Fields(Normal(c, e)) == Fields(e);
    }
  }

  /** The laws hold of this codec, and it encodes every entry but those with an empty non-nil payload. */
  lemma LawsAreConsistent()
    ensures Lawful(UNARY())
    ensures forall e: Entry :: Encodable(UNARY(), e) <==> e.data != Some([])
  {
    forall e ensures LawfulAt(UNARY(), e) {
      UnaryLawfulAt(e);
    }
    forall d ensures UNARY().compact(d) != [] && UNARY().compact(Some(UNARY().compact(d))) == UNARY().compact(d) {
      CompactTwice(d);
    }
  }
}
