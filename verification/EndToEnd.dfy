/** From the uploaded payload to what a sink can parse: the processors on the text of a payload, and the engine with
    such chains. */
module EndToEnd {
  import opened Bags
  import opened Framing
  import opened Codecs
  import opened Messages
  import opened Engine
  import Pipe = Pipeline
  import A = AtLeastOnce
  import X = ExactlyOnce

  /** Decoding and encoding of payloads. */
  datatype Text = Text(parse: Data -> Pipe.Payload, render: Pipe.Payload -> Bytes)

  /** A nil payload is sent as a literal null. */
  function Shown(p: Pipe.Payload): Pipe.Payload {
    if p.Absent? then Pipe.Null else p
  }

  /** No bytes parse as no payload, what was decoded can be encoded, objects and null survive the round trip, and
      compaction does not change the meaning. */
  ghost predicate Faithful(c: Codec, t: Text) {
    && t.parse(None) == t.parse(Some([])) == Pipe.Absent
    && (forall d :: Pipe.Clean(t.parse(d)))
    && (forall p :: Pipe.Clean(p) && (p.Obj? || p.Null?) ==> t.parse(Some(t.render(p))) == p)
    && (forall d :: t.parse(Some(c.compact(d))) == Shown(t.parse(d)))
  }

  /** The processor returns without encoding anything, so that the text stays as it is. */
  predicate PassesThrough(pr: Pipe.Processor, p: Pipe.Payload) {
    match pr
    case FieldFilter(mode, _) => p.Absent? || p.Other? || mode.NoMode?
    case FieldAdd(_) => false
    case FieldRedact(_) => p.Absent? || p.Other?
  }

  function StepText(t: Text, pr: Pipe.Processor, d: Data): Option<Data> {
    if PassesThrough(pr, t.parse(d)) then Some(d) else
      match Pipe.Step(pr, t.parse(d))
      case Done(q) => Some(Some(t.render(q)))
      case _ => None
  }

  /** A chain on the text of a payload, decoding and encoding at every processor; `None` is an error or a panic. */
  function RunText(t: Text, ps: seq<Pipe.Processor>, d: Data): Option<Data> {
    if ps == [] then Some(d) else
      match StepText(t, ps[0], d)
      case None => None
      case Some(e) => RunText(t, ps[1..], e)
  }

  /** No byte changes under a filter without a mode, nor on a payload that is not an object, unless fields are added. */
  lemma BytesKept(t: Text, pr: Pipe.Processor, d: Data)
    requires (pr.FieldFilter? && pr.mode.NoMode?) || (!pr.FieldAdd? && (t.parse(d).Absent? || t.parse(d).Other?))
    ensures StepText(t, pr, d) == Some(d)
  {
  }

  lemma StepTextMeans(c: Codec, t: Text, pr: Pipe.Processor, d: Data)
    requires Faithful(c, t)
    ensures StepText(t, pr, d).Some? <==> Pipe.Step(pr, t.parse(d)).Done?
    ensures StepText(t, pr, d).Some? ==> t.parse(StepText(t, pr, d).value) == Pipe.Step(pr, t.parse(d)).p
  {
    assert Pipe.Clean(t.parse(d));
  }

  /** On text a chain fails exactly when it fails on the decoded payload, and otherwise its text decodes to what the
      chain makes of the decoded payload. */
  lemma {:induction false} RunTextMeans(c: Codec, t: Text, ps: seq<Pipe.Processor>, d: Data)
    requires Faithful(c, t)
    ensures RunText(t, ps, d).Some? <==> Pipe.Run(ps, t.parse(d)).Done?
    ensures RunText(t, ps, d).Some? ==> t.parse(RunText(t, ps, d).value) == Pipe.Run(ps, t.parse(d)).p
  {
    if ps != [] {
      StepTextMeans(c, t, ps[0], d);
      if StepText(t, ps[0], d).Some? {
        RunTextMeans(c, t, ps[1..], StepText(t, ps[0], d).value);
      }
    }
  }

  /** The engine's chains are chains of processors on text. */
  ghost predicate Runs(g: Setup, t: Text, chains: string -> seq<Pipe.Processor>) {
    forall q, d :: g.chain(q, d) == RunText(t, chains(q), d)
  }

  /** What a sink parses out of an upload after its pipeline. */
  lemma WireParses(g: Setup, t: Text, chains: string -> seq<Pipe.Processor>, u: Message)
    requires Faithful(g.codec, t) && Runs(g, t, chains) && Piped(g, u).Some?
    ensures var o := Pipe.FusedPass(chains(u.project), t.parse(u.data));
      o.Done? && t.parse(WireOf(g.codec, Piped(g, u).value).data) == Shown(o.p)
  {
    var ps := chains(u.project);
    assert Pipe.Clean(t.parse(u.data));
    Pipe.ChainIsFusedPass(ps, t.parse(u.data));
    RunTextMeans(g.codec, t, ps, u.data);
    var m := Piped(g, u).value;
    assert m.data == RunText(t, ps, u.data).value;
    assert t.parse(CopyOf(m).data) == t.parse(m.data);
  }

  /** One delivered message and the upload it stems from. */
  ghost predicate Stems(g: Setup, t: Text, chains: string -> seq<Pipe.Processor>, v: Envelope, u: Message) {
    var o := Pipe.FusedPass(chains(u.project), t.parse(u.data));
    && v.requestId == u.requestId && v.traceId == u.traceId && v.receivedAt == u.timestamp && v.env == u.env
    && v.project == u.project && v.router == u.router
    && o.Done? && t.parse(v.data) == Shown(o.p)
  }

  /** End to end, in every state of every run: whatever a pool hands to its sink, in a try that succeeds or one that
      does not, carries the identity of an upload meant for that pool, and its payload parses to one fused pass of
      the project's chain over the uploaded payload. */
  lemma {:induction false} SinkSeesFusedPass(g: Setup, t: Text, chains: string -> seq<Pipe.Processor>, evs: seq<Event>,
                                             q: string, p: nat, h: Handle)
    requires Proper(g) && Faithful(g.codec, t) && Runs(g, t, chains)
    requires p < |g.pools| && A.Routed(g, q, p) && IsRun(g, Init(g), evs)
    requires p < |Run(g, Init(g), evs).pools| && X.Handed(Run(g, Init(g), evs).pools[p], h)
    ensures var s := Run(g, Init(g), evs);
      exists j :: 0 <= j < |s.uploads|
        && p in FanOf(g, s.uploads[j].0) && Stems(g, t, chains, WireOf(g.codec, h.msg), s.uploads[j].0)
  {
    X.PipelineExactlyOnce(g, evs, q, p, h);
    var s := Run(g, Init(g), evs);
    var v := WireOf(g.codec, h.msg);
    var j :| 0 <= j < |s.uploads| && Piped(g, s.uploads[j].0) == Some(s.uploads[j].1)
      && p in FanOf(g, s.uploads[j].1) && v == WireOf(g.codec, s.uploads[j].1);
    WireParses(g, t, chains, s.uploads[j].0);
    assert Stems(g, t, chains, v, s.uploads[j].0);
  }
}
