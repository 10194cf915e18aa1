/** Payload texts for the unary codec: the laws assumed of decoding and encoding payloads are consistent, together with
    those of the entry codec. An object is written as the list of its fields, each delimiting itself. */
module UnaryText {
  import opened Bags
  import opened Framing
  import opened Codecs
  import opened UnaryCodec
  import Pipe = Pipeline
  import E = EndToEnd
  import A = AtLeastOnce
  import P = Pools
  import Engine
  import ReplayRuns
  import WalLog
  import WalSizes

  type Field = (string, Pipe.Json)

  function ValueNums(v: Pipe.Json): seq<nat> {
    match v
    case Str(s) => [0] + Chars(s)
    case Value(id) => [1, id]
    case Unencodable => [2]
  }

  lemma ValueNumsUnique(v: Pipe.Json, w: Pipe.Json)
    requires ValueNums(v) == ValueNums(w)
    ensures v == w
  {
    assert ValueNums(v)[0] == ValueNums(w)[0];
    match v
    case Str(s) =>
      assert ([0] + Chars(s))[1..] == Chars(s) && ([0] + Chars(w.s))[1..] == Chars(w.s);
      CharsUnique(s, w.s);
    case Value(id) => assert ValueNums(v)[1] == ValueNums(w)[1];
    case Unencodable =>
  }

  function FieldNums(xs: seq<Field>): (r: seq<seq<nat>>)
    ensures |r| == 2 * |xs|
  {
    if xs == [] then [] else [Chars(xs[0].0), ValueNums(xs[0].1)] + FieldNums(xs[1..])
  }

  lemma {:induction false} FieldNumsUnique(xs: seq<Field>, ys: seq<Field>)
    requires FieldNums(xs) == FieldNums(ys)
    ensures xs == ys
  {
    if xs != [] {
      var a, b := FieldNums(xs), FieldNums(ys);
      assert a[0] == b[0] && a[1] == b[1] && a[2..] == FieldNums(xs[1..]) && b[2..] == FieldNums(ys[1..]);
      CharsUnique(xs[0].0, ys[0].0);
      ValueNumsUnique(xs[0].1, ys[0].1);
      FieldNumsUnique(xs[1..], ys[1..]);
      assert xs == [xs[0]] + xs[1..] && ys == [ys[0]] + ys[1..];
    }
  }

  /** The text of an object, given as a list of fields. */
  function ObjectText(xs: seq<Field>): Bytes {
    Unary(|xs|) + Texts(FieldNums(xs))
  }

  lemma ObjectTextUnique(xs: seq<Field>, ys: seq<Field>)
    requires ObjectText(xs) == ObjectText(ys)
    ensures xs == ys
  {
    UnarySplit(|xs|, |ys|, Texts(FieldNums(xs)), Texts(FieldNums(ys)));
    assert Texts(FieldNums(xs)) + [] == Texts(FieldNums(ys)) + [];
    TextsSplit(FieldNums(xs), FieldNums(ys), [], []);
    FieldNumsUnique(xs, ys);
  }

  /** The object a list of fields stands for. */
  function ObjectOf(xs: seq<Field>): Pipe.Object {
    if xs == [] then map[] else ObjectOf(xs[..|xs| - 1])[xs[|xs| - 1].0 := xs[|xs| - 1].1]
  }

  /** Every object is some list of fields. */
  lemma {:induction false} Listing(m: Pipe.Object) returns (xs: seq<Field>)
    ensures ObjectOf(xs) == m
    decreases |m|
  {
    if m == map[] {
      xs := [];
    } else {
      var k :| k in m;
      var rest := m - {k};
      assert rest.Keys == m.Keys - {k};
      var ys := Listing(rest);
      xs := ys + [(k, m[k])];
      assert xs[..|xs| - 1] == ys;
      assert rest[k := m[k]] == m;
    }
  }

  ghost predicate Writes(xs: seq<Field>, b: Bytes) {
    ObjectText(xs) == b && Pipe.CleanObject(ObjectOf(xs))
  }

  /** A text without white space. */
  ghost function ParseDense(b: Bytes): Pipe.Payload {
    if b == [] then Pipe.Absent
    else if b == NULL then Pipe.Null
    else if exists xs :: Writes(xs, b) then
      var xs :| Writes(xs, b);
      Pipe.Obj(ObjectOf(xs))
    else Pipe.Other(b)
  }

  ghost function Parse(d: Data): Pipe.Payload {
    if d.None? then Pipe.Absent else ParseDense(Strip(d.value))
  }

  ghost predicate Lists(xs: seq<Field>, m: Pipe.Object) {
    ObjectOf(xs) == m
  }

  ghost function Render(p: Pipe.Payload): Bytes {
    if p.Obj? && exists xs :: Lists(xs, p.fields) then
      var xs :| Lists(xs, p.fields);
      ObjectText(xs)
    else NULL
  }

  ghost function TEXT(): E.Text {
    E.Text((d: Data) => Parse(d), (p: Pipe.Payload) => Render(p))
  }

  // ---------- the laws ----------

  lemma {:induction false} PlainStrips(b: Bytes)
    requires Plain(b)
    ensures Strip(b) == b
  {
    if b != [] {
      PlainStrips(b[1..]);
      assert b == [b[0]] + b[1..];
    }
  }

  lemma ObjectTextPlain(xs: seq<Field>)
    ensures Plain(ObjectText(xs)) && ObjectText(xs) != [] && ObjectText(xs) != NULL
  {
    UnaryPlain(|xs|);
    TextsPlain(FieldNums(xs));
    assert NULL[0] == 110;
  }

  /** Text that lists a clean object parses to that object. */
  lemma ParseObject(xs: seq<Field>)
    requires Pipe.CleanObject(ObjectOf(xs))
    ensures Parse(Some(ObjectText(xs))) == Pipe.Obj(ObjectOf(xs))
  {
    var b := ObjectText(xs);
    ObjectTextPlain(xs);
    PlainStrips(b);
    assert Writes(xs, b);
    forall ys | Writes(ys, b) ensures ys == xs {
      ObjectTextUnique(ys, xs);
    }
  }

  lemma ParseRendered(p: Pipe.Payload)
    requires Pipe.Clean(p) && (p.Obj? || p.Null?)
    ensures Parse(Some(Render(p))) == p
  {
    if p.Obj? {
      var some := Listing(p.fields);
      assert Lists(some, p.fields);
      forall xs | Lists(xs, p.fields) ensures Parse(Some(ObjectText(xs))) == p {
        ParseObject(xs);
      }
    } else {
      NullStrips();
    }
  }

  lemma NullStrips()
    ensures Strip(NULL) == NULL
  {
    CompactTwice(None);
  }

  lemma ParseCompact(d: Data)
    ensures Parse(Some(Compact(d))) == E.Shown(Parse(d))
  {
    NullStrips();
    if d.Some? {
      StripTwice(d.value);
    }
  }

  /** The laws of the entry codec and of the payload texts hold together. */
  lemma AllLawsAreConsistent()
    ensures Lawful(UNARY()) && E.Faithful(UNARY(), TEXT())
  {
    LawsAreConsistent();
    var t := TEXT();
    forall p: Pipe.Payload | Pipe.Clean(p) && (p.Obj? || p.Null?) ensures t.parse(Some(t.render(p))) == p {
      ParseRendered(p);
    }
    forall d ensures t.parse(Some(UNARY().compact(d))) == E.Shown(t.parse(d)) {
      ParseCompact(d);
    }
  }

  /** A gateway with one project and two sinks. */
  ghost function GATEWAY(project: string): Engine.Setup {
    var pool := P.Config(16384, 10, P.FallbackMode);
    Engine.Setup(UNARY(), WalLog.Config(67108864, false), ReplayRuns.Scanner(WalSizes.ReplayCap(67108864)),
                 [pool, pool], [4, 4], map[project := [0, 1]], (q: string, d: Data) => Some(d))
  }

  /** It satisfies everything the theorems about the engine assume of one. */
  lemma GatewayExists(project: string)
    requires project != ""
    ensures Engine.Configured(GATEWAY(project)) && Engine.Proper(GATEWAY(project))
    ensures A.Routed(GATEWAY(project), project, 0) && A.Routed(GATEWAY(project), project, 1)
    ensures E.Runs(GATEWAY(project), TEXT(), _ => [])
  {
    AllLawsAreConsistent();
    Engine.ConfiguredIsProper(GATEWAY(project));
  }
}
