/** The pipeline processors: a small transformation language on JSON objects with a normal form. */
module Pipeline {
  import opened Bags

  /** A decoded JSON value. `Unencodable` stands for a configured value `json.Marshal` refuses. */
  datatype Json = Str(s: string) | Value(id: nat) | Unencodable

  type Object = map<string, Json>

  /** A message payload as the processors see it: no bytes, a literal null, an object, any other text. */
  datatype Payload = Absent | Null | Obj(fields: Object) | Other(raw: seq<int>)

  datatype Mode = Include | Exclude | NoMode

  datatype Processor =
    | FieldFilter(mode: Mode, names: seq<string>)
    | FieldAdd(added: Object)
    | FieldRedact(masks: map<string, string>)

  /** `Panic` is the write to a nil map. */
  datatype Outcome = Done(p: Payload) | Error | Panic

  predicate CleanObject(m: Object) {
    forall k :: k in m ==> m[k] != Unencodable
  }

  predicate Clean(p: Payload) {
    p.Obj? ==> CleanObject(p.fields)
  }

  function Marshal(m: Object): Outcome {
    if CleanObject(m) then Done(Obj(m)) else Error
  }

  // ---------- the processors on objects ----------

  function Only(m: Object, names: seq<string>): Object {
    map k | k in m && k in names :: m[k]
  }

  function Except(m: Object, names: seq<string>): Object {
    map k | k in m && k !in names :: m[k]
  }

  function Masked(m: Object, masks: map<string, string>): Object {
    map k | k in m :: if k in masks then Str(masks[k]) else m[k]
  }

  /** One processor. Unmarshalling `null` succeeds and leaves a nil map: reads find nothing, it marshals
      back to `null`, an include filter replaces it by a fresh map, and writing to it panics. */
  function Step(pr: Processor, p: Payload): Outcome {
    match pr
    case FieldFilter(mode, names) =>
      (match p
       case Obj(m) =>
         (match mode
          case Include => Marshal(Only(m, names))
          case Exclude => Marshal(Except(m, names))
          case NoMode => Done(p))
       case Null => if mode.Include? then Done(Obj(map[])) else Done(p)
       case _ => Done(p))
    case FieldAdd(added) =>
      (match p
       case Obj(m) => Marshal(m + added)
       case Null => if added == map[] then Done(Null) else Panic
       case _ => Marshal(added))
    case FieldRedact(masks) =>
      (match p
       case Obj(m) => Marshal(Masked(m, masks))
       case _ => Done(p))
  }

  function Run(ps: seq<Processor>, p: Payload): Outcome {
    if ps == [] then Done(p) else
      match Step(ps[0], p)
      case Done(q) => Run(ps[1..], q)
      case o => o
  }

  // ---------- the normal form ----------

  /** What a chain does to one key: leave it, remove it, set a constant, mask it if present. */
  datatype Action = Keep | Drop | Set(v: Json) | Mask(s: string)

  function Lookup(m: Object, k: string): Option<Json> {
    if k in m then Some(m[k]) else None
  }

  function Act(a: Action, v: Option<Json>): Option<Json> {
    match a
    case Keep => v
    case Drop => None
    case Set(x) => Some(x)
    case Mask(s) => if v.Some? then Some(Str(s)) else None
  }

  /** Four actions are enough: they are closed under composition. */
  function Then(a: Action, b: Action): (r: Action)
    ensures forall v :: Act(r, v) == Act(b, Act(a, v))
  {
    match b
    case Keep => a
    case Drop => Drop
    case Set(_) => b
    case Mask(s) =>
      match a
      case Keep => b
      case Drop => Drop
      case Set(_) => Set(Str(s))
      case Mask(_) => b
  }

  function KeyAction(pr: Processor, k: string): Action {
    match pr
    case FieldFilter(mode, names) =>
      if (mode.Include? && k !in names) || (mode.Exclude? && k in names) then Drop else Keep
    case FieldAdd(added) => if k in added then Set(added[k]) else Keep
    case FieldRedact(masks) => if k in masks then Mask(masks[k]) else Keep
  }

  function ChainAction(ps: seq<Processor>, k: string): Action {
    if ps == [] then Keep else Then(KeyAction(ps[0], k), ChainAction(ps[1..], k))
  }

  /** The keys a chain names; all other keys are treated alike. */
  function Named(ps: seq<Processor>): set<string> {
    if ps == [] then {} else
      (match ps[0]
       case FieldFilter(_, names) => set k | k in names
       case FieldAdd(added) => added.Keys
       case FieldRedact(masks) => masks.Keys)
      + Named(ps[1..])
  }

  predicate HasInclude(ps: seq<Processor>) {
    exists i :: 0 <= i < |ps| && ps[i].FieldFilter? && ps[i].mode.Include?
  }

  predicate HasAdd(ps: seq<Processor>) {
    exists i :: 0 <= i < |ps| && ps[i].FieldAdd?
  }

  predicate AddsClean(ps: seq<Processor>) {
    forall i :: 0 <= i < |ps| && ps[i].FieldAdd? ==> CleanObject(ps[i].added)
  }

  /** A chain as one table: an action for each named key and one for the rest. */
  datatype Fused = Fused(named: map<string, Action>, rest: Action)

  function Fuse(ps: seq<Processor>): Fused {
    Fused(map k | k in Named(ps) :: ChainAction(ps, k), if HasInclude(ps) then Drop else Keep)
  }

  function ActionOf(f: Fused, k: string): Action {
    if k in f.named then f.named[k] else f.rest
  }

  /** The single pass: each key is looked at once. */
  function Apply(f: Fused, m: Object): Object {
    map k | k in m.Keys + f.named.Keys && Act(ActionOf(f, k), Lookup(m, k)).Some?
      :: Act(ActionOf(f, k), Lookup(m, k)).value
  }

  lemma {:induction false} UnnamedKeys(ps: seq<Processor>, k: string)
    requires k !in Named(ps)
    ensures ChainAction(ps, k) == if HasInclude(ps) then Drop else Keep
  {
    if ps != [] {
      UnnamedKeys(ps[1..], k);
      assert HasInclude(ps) <==> (ps[0].FieldFilter? && ps[0].mode.Include?) || HasInclude(ps[1..]) by {
        if HasInclude(ps[1..]) {
          var i :| 0 <= i < |ps[1..]| && ps[1..][i].FieldFilter? && ps[1..][i].mode.Include?;
          assert ps[i + 1] == ps[1..][i];
        }
        if HasInclude(ps) {
          var i :| 0 <= i < |ps| && ps[i].FieldFilter? && ps[i].mode.Include?;
          if i > 0 { assert ps[1..][i - 1] == ps[i]; }
        }
      }
    }
  }

  lemma {:induction false} FusedActions(ps: seq<Processor>, k: string)
    ensures ActionOf(Fuse(ps), k) == ChainAction(ps, k)
  {
    if k !in Named(ps) {
      UnnamedKeys(ps, k);
    }
  }

  lemma ApplyLookup(f: Fused, m: Object, k: string)
    requires f.rest.Keep? || f.rest.Drop?
    ensures Lookup(Apply(f, m), k) == Act(ActionOf(f, k), Lookup(m, k))
  {
  }

  /** One processor on an object, key by key. */
  lemma StepActs(pr: Processor, m: Object)
    requires CleanObject(m) && (pr.FieldAdd? ==> CleanObject(pr.added))
    ensures Step(pr, Obj(m)).Done? && Step(pr, Obj(m)).p.Obj? && CleanObject(Step(pr, Obj(m)).p.fields)
    ensures forall k :: Lookup(Step(pr, Obj(m)).p.fields, k) == Act(KeyAction(pr, k), Lookup(m, k))
  {
  }

  lemma {:induction false} ChainActs(ps: seq<Processor>, m: Object)
    requires CleanObject(m) && AddsClean(ps)
    ensures Run(ps, Obj(m)).Done? && Run(ps, Obj(m)).p.Obj? && CleanObject(Run(ps, Obj(m)).p.fields)
    ensures forall k :: Lookup(Run(ps, Obj(m)).p.fields, k) == Act(ChainAction(ps, k), Lookup(m, k))
  {
    if ps != [] {
      StepActs(ps[0], m);
      ChainActs(ps[1..], Step(ps[0], Obj(m)).p.fields);
    }
  }

  lemma SameObject(a: Object, b: Object)
    requires forall k :: Lookup(a, k) == Lookup(b, k)
    ensures a == b
  {
    forall k ensures k in a <==> k in b {
      assert Lookup(a, k) == Lookup(b, k);
    }
    forall k | k in a ensures a[k] == b[k] {
      assert Lookup(a, k) == Lookup(b, k);
    }
  }

  /** On objects a chain of any length is the single fused pass. */
  lemma {:induction false} ChainFuses(ps: seq<Processor>, m: Object)
    requires CleanObject(m) && AddsClean(ps)
    ensures Run(ps, Obj(m)) == Done(Obj(Apply(Fuse(ps), m)))
  {
    ChainActs(ps, m);
    var r := Run(ps, Obj(m)).p.fields;
    forall k ensures Lookup(r, k) == Lookup(Apply(Fuse(ps), m), k) {
      FusedActions(ps, k);
      ApplyLookup(Fuse(ps), m, k);
    }
    SameObject(r, Apply(Fuse(ps), m));
  }

  // ---------- all payloads ----------

  /** The first processor that turns a literal null into something else: an include filter or an
      addition of at least one field. */
  function FirstWake(ps: seq<Processor>): (i: nat)
    ensures i <= |ps|
  {
    if ps == [] || Wakes(ps[0]) then 0 else 1 + FirstWake(ps[1..])
  }

  predicate Wakes(pr: Processor) {
    (pr.FieldFilter? && pr.mode.Include?) || (pr.FieldAdd? && pr.added != map[])
  }

  /** What a chain does to any payload, read off the table and two syntactic facts about the chain. */
  function FusedPass(ps: seq<Processor>, p: Payload): Outcome {
    match p
    case Obj(m) => if AddsClean(ps) then Done(Obj(Apply(Fuse(ps), m))) else Error
    case Null =>
      var i := FirstWake(ps);
      if i == |ps| then Done(Null)
      else if ps[i].FieldAdd? then Panic
      else if AddsClean(ps) then Done(Obj(Apply(Fuse(ps), map[]))) else Error
    case _ =>
      if !HasAdd(ps) then Done(p)
      else if AddsClean(ps) then Done(Obj(Apply(Fuse(ps), map[]))) else Error
  }

  lemma AddsCleanSplit(ps: seq<Processor>)
    requires ps != []
    ensures AddsClean(ps) <==> (ps[0].FieldAdd? ==> CleanObject(ps[0].added)) && AddsClean(ps[1..])
    ensures HasAdd(ps) <==> ps[0].FieldAdd? || HasAdd(ps[1..])
  {
  }

  /** A chain with an unencodable addition fails on every object. */
  lemma {:induction false} DirtyChainFails(ps: seq<Processor>, m: Object)
    requires CleanObject(m) && !AddsClean(ps)
    ensures Run(ps, Obj(m)) == Error
  {
    AddsCleanSplit(ps);
    if ps[0].FieldAdd? && !CleanObject(ps[0].added) {
      var k :| k in ps[0].added && ps[0].added[k] == Unencodable;
      assert (m + ps[0].added)[k] == Unencodable;
    } else {
      StepActs(ps[0], m);
      DirtyChainFails(ps[1..], Step(ps[0], Obj(m)).p.fields);
    }
  }

  lemma OnObjects(ps: seq<Processor>, m: Object)
    requires CleanObject(m)
    ensures Run(ps, Obj(m)) == FusedPass(ps, Obj(m))
  {
    if AddsClean(ps) {
      ChainFuses(ps, m);
    } else {
      DirtyChainFails(ps, m);
    }
  }

  /** A processor other than an addition leaves the empty object empty. */
  lemma EmptyStaysEmpty(ps: seq<Processor>)
    requires ps != [] && (ps[0].FieldAdd? ==> ps[0].added == map[])
    ensures Run(ps, Obj(map[])) == Run(ps[1..], Obj(map[]))
  {
  }

  lemma {:induction false} OnPlain(ps: seq<Processor>, p: Payload)
    requires p.Absent? || p.Other?
    ensures Run(ps, p) == if HasAdd(ps) then Run(ps, Obj(map[])) else Done(p)
  {
    if ps != [] {
      AddsCleanSplit(ps);
      if ps[0].FieldAdd? {
        assert map[] + ps[0].added == ps[0].added;
      } else {
        EmptyStaysEmpty(ps);
        OnPlain(ps[1..], p);
      }
    }
  }

  lemma {:induction false} OnNull(ps: seq<Processor>)
    ensures var i := FirstWake(ps);
      Run(ps, Null) == if i == |ps| then Done(Null) else if ps[i].FieldAdd? then Panic else Run(ps, Obj(map[]))
  {
    if ps != [] {
      if Wakes(ps[0]) {
        if ps[0].FieldFilter? {
          assert Only(map[], ps[0].names) == map[];
        }
      } else {
        EmptyStaysEmpty(ps);
        OnNull(ps[1..]);
      }
    }
  }

  /** Every chain equals the fused pass on every payload, errors and panics included. */
  lemma ChainIsFusedPass(ps: seq<Processor>, p: Payload)
    requires Clean(p)
    ensures Run(ps, p) == FusedPass(ps, p)
  {
    match p
    case Obj(m) => OnObjects(ps, m);
    case Null =>
      OnNull(ps);
      OnObjects(ps, map[]);
    case _ =>
      OnPlain(ps, p);
      OnObjects(ps, map[]);
  }

  /** Applying a fused table twice is applying it once. */
  lemma ApplyTwice(f: Fused, m: Object)
    requires f.rest.Keep? || f.rest.Drop?
    ensures Apply(f, Apply(f, m)) == Apply(f, m)
  {
  }

  /** Every chain is idempotent, on every payload it finishes on. */
  lemma ChainIdempotent(ps: seq<Processor>, p: Payload)
    requires Clean(p) && Run(ps, p).Done?
    ensures Run(ps, Run(ps, p).p) == Run(ps, p)
  {
    ChainIsFusedPass(ps, p);
    var q := Run(ps, p).p;
    if q.Obj? {
      var m := if p.Obj? then p.fields else map[];
      OnObjects(ps, m);
      ChainActs(ps, m);
      OnObjects(ps, q.fields);
      ApplyTwice(Fuse(ps), m);
    } else {
      assert q == p;
    }
  }

  /** A chain panics on a literal null exactly when the first processor that wakes it is an addition, and
      on nothing else. */
  lemma {:induction false} PanicsExactlyOnNull(ps: seq<Processor>, p: Payload)
    requires Clean(p)
    ensures Run(ps, p) == Panic <==> p.Null? && FirstWake(ps) < |ps| && ps[FirstWake(ps)].FieldAdd?
  {
    ChainIsFusedPass(ps, p);
  }

  // ---------- the loops ----------

  method IncludeFields(data: Object, names: seq<string>) returns (filtered: Object)
    ensures filtered == Only(data, names)
  {
    filtered := map[];
    for i := 0 to |names|
      invariant filtered == Only(data, names[..i])
    {
      assert names[..i + 1] == names[..i] + [names[i]];
      if names[i] in data {
        filtered := filtered[names[i] := data[names[i]]];
      }
    }
    assert names[..|names|] == names;
  }

  method ExcludeFields(data: Object, names: seq<string>) returns (left: Object)
    ensures left == Except(data, names)
  {
    left := data;
    for i := 0 to |names|
      invariant left == Except(data, names[..i])
    {
      assert names[..i + 1] == names[..i] + [names[i]];
      left := left - {names[i]};
    }
    assert names[..|names|] == names;
  }

  /** Ranging over a Go map: any order. */
  method AddFields(data: Object, added: Object) returns (r: Object)
    ensures r == data + added
  {
    r := data;
    var todo := added.Keys;
    while todo != {}
      invariant todo <= added.Keys
      invariant r == data + map k | k in added && k !in todo :: added[k]
      decreases todo
    {
      var k :| k in todo;
      r := r[k := added[k]];
      todo := todo - {k};
    }
    assert added == map k | k in added && k !in todo :: added[k];
  }

  method RedactFields(data: Object, masks: map<string, string>) returns (r: Object)
    ensures r == Masked(data, masks)
  {
    r := data;
    var todo := masks.Keys;
    while todo != {}
      invariant todo <= masks.Keys && r.Keys == data.Keys
      invariant forall k :: k in r ==> r[k] == if k in masks && k !in todo then Str(masks[k]) else data[k]
      decreases todo
    {
      var k :| k in todo;
      if k in r {
        r := r[k := Str(masks[k])];
      }
      todo := todo - {k};
    }
  }

  method Process(pr: Processor, p: Payload) returns (o: Outcome)
    ensures o == Step(pr, p)
  {
    match pr
    case FieldFilter(mode, names) =>
      if p.Obj? && mode.Include? {
        var filtered := IncludeFields(p.fields, names);
        o := Marshal(filtered);
      } else if p.Obj? && mode.Exclude? {
        var left := ExcludeFields(p.fields, names);
        o := Marshal(left);
      } else if p.Null? && mode.Include? {
        o := Marshal(map[]);
      } else {
        o := Done(p);
      }
    case FieldAdd(added) =>
      if p.Null? {
        o := if added == map[] then Done(Null) else Panic;
      } else {
        var data := if p.Obj? then p.fields else map[];
        var r := AddFields(data, added);
        assert map[] + added == added;
        o := Marshal(r);
      }
    case FieldRedact(masks) =>
      if p.Obj? {
        var r := RedactFields(p.fields, masks);
        o := Marshal(r);
      } else {
        o := Done(p);
      }
  }

  class Chain {
    var processors: seq<Processor>

    constructor ()
      ensures processors == []
    {
      processors := [];
    }

    method Add(p: Processor)
      modifies this
      ensures processors == old(processors) + [p]
    {
      processors := processors + [p];
    }

    /** Stops at the first processor that fails. */
    method ProcessAll(p: Payload) returns (o: Outcome)
      ensures o == Run(processors, p)
    {
      var i := 0;
      o := Done(p);
      assert processors[0..] == processors;
      while i < |processors|
        invariant i <= |processors| && o.Done?
        invariant Run(processors, p) == Run(processors[i..], o.p)
      {
        assert processors[i..][1..] == processors[i + 1..];
        o := Process(processors[i], o.p);
        if !o.Done? {
          return;
        }
        i := i + 1;
      }
    }
  }
}
