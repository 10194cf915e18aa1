/** The dispatcher: one pass through the pipeline, a copy for every pool, all of them or a prefix. */
module Dispatchers {
  import opened Bags
  import opened Framing
  import opened Codecs
  import opened MessagePool
  import opened WorkerPools
  import M = Messages
  import P = Pools
  import WalLog
  import WalWriter

  /** The pools of one project: different objects sharing one message pool and one log. */
  ghost predicate Usable(ps: seq<WorkerPool>, messages: Pool, wal: WalWriter.Writer?) {
    && (forall i, j :: 0 <= i < j < |ps| ==> ps[i] != ps[j])
    && (forall i :: 0 <= i < |ps| ==> ps[i].messages == messages && ps[i].wal == wal && P.Proper(ps[i].cfg))
  }

  /** What a pool does with a message: keep it in the channel, spill it to the log, or refuse it. */
  datatype Reply = Keeps | Spills | Refuses

  /** `SubmitStrict` keeps or refuses; `Submit` disregards the circuit and in fallback mode spills. */
  function ReplyOf(p: WorkerPool, strict: bool): Reply
    reads p
  {
    if p.closed || (strict && p.circuitOpen) then Refuses
    else if |p.ch| < p.cfg.capacity then Keeps
    else if !strict && p.cfg.mode.FallbackMode? then Spills
    else Refuses
  }

  ghost function Replies(ps: seq<WorkerPool>, strict: bool): (r: seq<Reply>)
    reads ps
    ensures |r| == |ps|
  {
    seq(|ps|, i requires 0 <= i < |ps| reads ps => ReplyOf(ps[i], strict))
  }

  predicate Loggable(wal: WalWriter.Writer?, m: M.Message) {
    wal != null && Encodable(wal.codec, M.EntryOf(m))
  }

  /** The log after a pool has replied to message `m`. */
  ghost predicate Noted(wal: WalWriter.Writer, log: WalLog.Wal, before: seq<(nat, Entry)>, m: M.Message, reply: Reply)
    reads wal
  {
    if reply.Spills? && Loggable(wal, m) then Appended(before, wal, m) else wal.Log() == log
  }

  /** One turn of the fan-out. A copy that is not kept is back in the message pool. */
  method Give(messages: Pool, msg: Message, p: WorkerPool, wal: WalWriter.Writer?, strict: bool)
    returns (ok: bool, ghost given: Option<Message>)
    requires p.Valid() && msg !in messages.free && p.messages == messages && p.wal == wal
    modifies messages, messages.free, p`ch, p`walFallbacks, wal
    ensures p.Valid() && msg !in messages.free
    ensures ok == !old(ReplyOf(p, strict)).Refuses? && given.Some? == old(ReplyOf(p, strict)).Keeps?
    ensures forall x :: x in messages.free ==> x in old(messages.free) || fresh(x)
    ensures given.Some? ==>
      && p.ch == old(p.ch) + [given.value] && given.value.Value() == M.CopyOf(old(msg.Value()))
      && given.value !in messages.free && given.value != msg
      && (given.value in old(messages.free) || fresh(given.value))
      && (given.value.data != null ==> fresh(given.value.data))
    ensures given.None? ==> p.ch == old(p.ch)
    ensures wal != null ==>
      Noted(wal, old(wal.Log()), old(wal.Entries()), M.CopyOf(old(msg.Value())), old(ReplyOf(p, strict)))
  {
    var m := messages.Copy(msg);
    given := if ReplyOf(p, strict).Keeps? then Some(m) else None;
    if strict {
      ok := p.SubmitStrict(m);
    } else {
      var written;
      ok, written := p.Submit(m);
    }
  }

  // ---------- the channels ----------

  ghost function Channels(ps: seq<WorkerPool>): (r: seq<seq<Message>>)
    reads ps
    ensures |r| == |ps|
  {
    seq(|ps|, i requires 0 <= i < |ps| reads ps => ps[i].ch)
  }

  /** The pools that kept their copy have one more message, the others what they had. */
  ghost predicate Served(before: seq<seq<Message>>, after: seq<seq<Message>>, given: seq<Option<Message>>) {
    |before| == |after| && |given| <= |before|
    && forall i :: 0 <= i < |before| ==>
         after[i] == if i < |given| && given[i].Some? then before[i] + [given[i].value] else before[i]
  }

  lemma ServedPush(before: seq<seq<Message>>, was: seq<seq<Message>>, now: seq<seq<Message>>,
                   given: seq<Option<Message>>, g: Option<Message>)
    requires Served(before, was, given) && |given| < |before|
    requires now == was[|given| := if g.Some? then was[|given|] + [g.value] else was[|given|]]
    ensures Served(before, now, given + [g]) && (g.None? ==> Served(before, now, given))
  {
  }

  /** No message in a channel is in the set, such as the set of those put back. */
  ghost predicate Outside(channels: seq<seq<Message>>, free: set<Message>) {
    forall i, j :: 0 <= i < |channels| && 0 <= j < |channels[i]| ==> channels[i][j] !in free
  }

  lemma ServedOutside(before: seq<seq<Message>>, after: seq<seq<Message>>, given: seq<Option<Message>>,
                      free: set<Message>)
    requires Served(before, after, given) && Outside(before, free)
    requires forall i :: 0 <= i < |given| && given[i].Some? ==> given[i].value !in free
    ensures Outside(after, free)
  {
  }

  // ---------- the copies ----------

  /** The buffers of the copies that were kept. */
  ghost function Buffers(given: seq<Option<Message>>): (r: seq<array?<Byte>>)
    reads set i | 0 <= i < |given| && given[i].Some? :: given[i].value
    ensures |r| == |given|
  {
    seq(|given|, i requires 0 <= i < |given| reads set i | 0 <= i < |given| && given[i].Some? :: given[i].value =>
      if given[i].Some? then given[i].value.data else null)
  }

  lemma BuffersPush(given: seq<Option<Message>>, g: Option<Message>)
    ensures Buffers(given + [g]) == Buffers(given) + [if g.Some? then g.value.data else null]
  {
  }

  ghost predicate Different(given: seq<Option<Message>>) {
    forall i, j :: 0 <= i < j < |given| && given[i].Some? && given[j].Some? ==> given[i].value != given[j].value
  }

  ghost predicate Unshared(buffers: seq<array?<Byte>>) {
    forall i, j :: 0 <= i < j < |buffers| && buffers[i] != null ==> buffers[i] != buffers[j]
  }

  /** Different objects that share no buffers. */
  ghost predicate Apart(given: seq<Option<Message>>)
    reads set i | 0 <= i < |given| && given[i].Some? :: given[i].value
  {
    Different(given) && Unshared(Buffers(given))
  }

  lemma ApartPush(given: seq<Option<Message>>, g: Option<Message>)
    requires Apart(given)
    requires g.Some? ==> forall i :: 0 <= i < |given| && given[i].Some? ==> given[i].value != g.value
    requires g.Some? && g.value.data != null ==> forall i :: 0 <= i < |given| ==> Buffers(given)[i] != g.value.data
    ensures Apart(given + [g])
  {
    BuffersPush(given, g);
  }

  /** Equal copies of `v`, in use, none of them the original. */
  ghost predicate Equal(given: seq<Option<Message>>, v: M.Message, messages: Pool, src: Message)
    reads messages, set i | 0 <= i < |given| && given[i].Some? :: given[i].value
    reads set i | 0 <= i < |given| && given[i].Some? && given[i].value.data != null :: given[i].value.data
  {
    forall i :: 0 <= i < |given| && given[i].Some? ==>
      given[i].value.Value() == v && given[i].value !in messages.free && given[i].value != src
  }

  /** And no two of them the same object or sharing a buffer. */
  ghost predicate Given(given: seq<Option<Message>>, v: M.Message, messages: Pool, src: Message)
    reads messages, set i | 0 <= i < |given| && given[i].Some? :: given[i].value
    reads set i | 0 <= i < |given| && given[i].Some? && given[i].value.data != null :: given[i].value.data
  {
    Equal(given, v, messages, src) && Apart(given)
  }

  /** A copy for one more pool. */
  method GiveEqual(messages: Pool, msg: Message, p: WorkerPool, wal: WalWriter.Writer?, strict: bool,
                   ghost given: seq<Option<Message>>)
    returns (ok: bool, ghost g: Option<Message>)
    requires p.Valid() && msg !in messages.free && p.messages == messages && p.wal == wal
    requires Equal(given, M.CopyOf(msg.Value()), messages, msg)
    modifies messages, messages.free, p`ch, p`walFallbacks, wal
    ensures p.Valid() && msg !in messages.free && msg.Value() == old(msg.Value())
    ensures forall x :: x in messages.free ==> x in old(messages.free) || fresh(x)
    ensures ok == !old(ReplyOf(p, strict)).Refuses? && g.Some? == old(ReplyOf(p, strict)).Keeps?
    ensures p.ch == if g.Some? then old(p.ch) + [g.value] else old(p.ch)
    ensures Equal(if ok then given + [g] else given, M.CopyOf(old(msg.Value())), messages, msg)
    ensures Buffers(given) == old(Buffers(given))
    ensures g.Some? ==>
      (g.value in old(messages.free) || fresh(g.value)) && (g.value.data != null ==> fresh(g.value.data))
    ensures wal != null ==>
      Noted(wal, old(wal.Log()), old(wal.Entries()), M.CopyOf(old(msg.Value())), old(ReplyOf(p, strict)))
  {
    ok, g := Give(messages, msg, p, wal, strict);
  }

  method GiveCopy(messages: Pool, msg: Message, p: WorkerPool, wal: WalWriter.Writer?, strict: bool,
                  ghost given: seq<Option<Message>>)
    returns (ok: bool, ghost g: Option<Message>)
    requires p.Valid() && msg !in messages.free && p.messages == messages && p.wal == wal
    requires Given(given, M.CopyOf(msg.Value()), messages, msg)
    modifies messages, messages.free, p`ch, p`walFallbacks, wal
    ensures p.Valid() && msg !in messages.free && msg.Value() == old(msg.Value())
    ensures forall x :: x in messages.free ==> x in old(messages.free) || fresh(x)
    ensures g.Some? ==> g.value in old(messages.free) || fresh(g.value)
    ensures ok == !old(ReplyOf(p, strict)).Refuses? && g.Some? == old(ReplyOf(p, strict)).Keeps?
    ensures p.ch == if g.Some? then old(p.ch) + [g.value] else old(p.ch)
    ensures Given(if ok then given + [g] else given, M.CopyOf(old(msg.Value())), messages, msg)
    ensures Buffers(given) == old(Buffers(given)) && (g.Some? && g.value.data != null ==> fresh(g.value.data))
    ensures wal != null ==>
      Noted(wal, old(wal.Log()), old(wal.Entries()), M.CopyOf(old(msg.Value())), old(ReplyOf(p, strict)))
  {
    ok, g := GiveEqual(messages, msg, p, wal, strict, given);
    ApartPush(given, g);
  }

  // ---------- the loop ----------

  /** The pools not yet served reply as at the start. */
  ghost predicate Pending(ps: seq<WorkerPool>, strict: bool, replies: seq<Reply>, k: nat)
    reads ps
  {
    |replies| == |ps| && forall i :: k <= i < |ps| ==> ReplyOf(ps[i], strict) == replies[i]
  }

  ghost predicate Matches(replies: seq<Reply>, given: seq<Option<Message>>) {
    |given| <= |replies| && forall i :: 0 <= i < |given| ==> !replies[i].Refuses? && given[i].Some? == replies[i].Keeps?
  }

  lemma MatchesPush(replies: seq<Reply>, given: seq<Option<Message>>, g: Option<Message>)
    requires Matches(replies, given) && |given| < |replies|
    requires !replies[|given|].Refuses? && g.Some? == replies[|given|].Keeps?
    ensures Matches(replies, given + [g])
  {
  }

  /** The fan-out has served as many pools as were given something; the others still reply as at the start. */
  ghost predicate Round(messages: Pool, msg: Message, v: M.Message, ps: seq<WorkerPool>, strict: bool,
                        before: seq<seq<Message>>, replies: seq<Reply>, given: seq<Option<Message>>)
    reads messages, messages.free, msg, msg.data, ps, set i | 0 <= i < |given| && given[i].Some? :: given[i].value
    reads set i | 0 <= i < |given| && given[i].Some? && given[i].value.data != null :: given[i].value.data
  {
    && messages.Valid() && msg !in messages.free && msg.Value() == v
    && Served(before, Channels(ps), given) && Given(given, M.CopyOf(v), messages, msg)
    && Matches(replies, given) && Pending(ps, strict, replies, |given|)
  }

  /** What others hold is not put back. */
  ghost predicate Away(free: set<Message>, held: iset<Message>) {
    forall x :: x in free ==> x !in held
  }

  /** The copies and their buffers are none of those that others hold. */
  ghost predicate Anew(given: seq<Option<Message>>, bufs: seq<array?<Byte>>, held: iset<Message>,
                       taken: iset<array?<Byte>>) {
    && (forall i :: 0 <= i < |given| && given[i].Some? ==> given[i].value !in held)
    && (forall i :: 0 <= i < |bufs| && bufs[i] != null ==> bufs[i] !in taken)
  }

  lemma AnewPush(given: seq<Option<Message>>, bufs: seq<array?<Byte>>, g: Option<Message>, buf: array?<Byte>,
                 held: iset<Message>, taken: iset<array?<Byte>>)
    requires Anew(given, bufs, held, taken) && (g.Some? ==> g.value !in held) && (buf != null ==> buf !in taken)
    ensures Anew(given + [g], bufs + [buf], held, taken)
  {
  }

  /** What a dispatch may do to the message pool: put back the original and objects of its own, and draw the copies it
      gives away. Whatever anyone else holds stays out of both. */
  twostate predicate Drawn(messages: Pool, msg: Message, new given: seq<Option<Message>>)
    reads messages
  {
    && (forall x :: x in messages.free ==> x in old(messages.free) || fresh(x) || x == msg)
    && (forall i :: 0 <= i < |given| && given[i].Some? ==>
          given[i].value in old(messages.free) || fresh(given[i].value))
  }

  /** One more pool served. */
  method GiveServed(messages: Pool, msg: Message, p: WorkerPool, wal: WalWriter.Writer?, strict: bool,
                    ghost v: M.Message, ghost ps: seq<WorkerPool>, ghost before: seq<seq<Message>>,
                    ghost replies: seq<Reply>, ghost given: seq<Option<Message>>)
    returns (ok: bool, ghost g: Option<Message>)
    requires Usable(ps, messages, wal) && Round(messages, msg, v, ps, strict, before, replies, given)
    requires |given| < |ps| && p == ps[|given|] && p.Valid()
    modifies messages, messages.free, p`ch, p`walFallbacks, wal
    ensures p.Valid() && forall x :: x in messages.free ==> x in old(messages.free) || fresh(x)
    ensures g.Some? ==> g.value in old(messages.free) || fresh(g.value)
    ensures ok == !replies[|given|].Refuses? && g.Some? == replies[|given|].Keeps?
    ensures Round(messages, msg, v, ps, strict, before, replies, if ok then given + [g] else given)
    ensures Buffers(given) == old(Buffers(given)) && (g.Some? && g.value.data != null ==> fresh(g.value.data))
    ensures wal != null ==> Noted(wal, old(wal.Log()), old(wal.Entries()), M.CopyOf(v), replies[|given|])
  {
    ghost var was := Channels(ps);
    ok, g := GiveCopy(messages, msg, p, wal, strict, given);
    assert Channels(ps) == was[|given| := p.ch];
    ServedPush(before, was, Channels(ps), given, g);
    if ok {
      MatchesPush(replies, given, g);
    }
  }

  /** Channels that were full. */
  function Spilt(given: seq<Option<Message>>): nat {
    if given == [] then 0 else Spilt(given[..|given| - 1]) + if given[|given| - 1].None? then 1 else 0
  }

  /** The log was written the message `n` times, and nothing else. */
  ghost predicate Extended(before: seq<(nat, Entry)>, wal: WalWriter.Writer, m: M.Message, n: nat)
    reads wal
  {
    && |wal.Entries()| == |before| + n && before <= wal.Entries()
    && forall i :: |before| <= i < |wal.Entries()| ==> wal.Entries()[i].1 == Normal(wal.codec, M.EntryOf(m))
  }

  /** The log has exactly the spilt copies on top, if they can be encoded. */
  ghost predicate Booked(wal: WalWriter.Writer?, start: seq<(nat, Entry)>, v: M.Message, given: seq<Option<Message>>)
    reads wal
  {
    wal != null ==>
      && wal.Valid() && Lawful(wal.codec)
      && Extended(start, wal, M.CopyOf(v), if Loggable(wal, M.CopyOf(v)) then Spilt(given) else 0)
  }

  /** The log after one more pool has been served. */
  lemma LogStep(start: seq<(nat, Entry)>, was: seq<(nat, Entry)>, wal: WalWriter.Writer, v: M.Message,
                given: seq<Option<Message>>, g: Option<Message>)
    requires start <= was && |was| == |start| + (if Loggable(wal, v) then Spilt(given) else 0)
    requires forall i :: |start| <= i < |was| ==> was[i].1 == Normal(wal.codec, M.EntryOf(v))
    requires if g.None? && Loggable(wal, v) then Appended(was, wal, v) else wal.Entries() == was
    ensures Extended(start, wal, v, if Loggable(wal, v) then Spilt(given + [g]) else 0)
  {
  }

  method GiveOn(messages: Pool, msg: Message, p: WorkerPool, wal: WalWriter.Writer?, strict: bool, ghost v: M.Message,
                ghost ps: seq<WorkerPool>, ghost before: seq<seq<Message>>, ghost replies: seq<Reply>,
                ghost start: seq<(nat, Entry)>, ghost given: seq<Option<Message>>,
                ghost held: iset<Message>, ghost taken: iset<array?<Byte>>)
    returns (ok: bool, ghost more: seq<Option<Message>>, ghost g: Option<Message>, ghost buf: array?<Byte>)
    requires Usable(ps, messages, wal) && Round(messages, msg, v, ps, strict, before, replies, given)
    requires Booked(wal, start, v, given) && |given| < |ps| && p == ps[|given|] && Away(messages.free, held)
    modifies messages, messages.free, p`ch, p`walFallbacks, wal
    ensures Away(messages.free, held) && forall x :: x in messages.free ==> x in old(messages.free) || fresh(x)
    ensures ok == !replies[|given|].Refuses?
    ensures Round(messages, msg, v, ps, strict, before, replies, more) && Booked(wal, start, v, more)
    ensures more == (if ok then given + [g] else given) && (g.Some? ==> g.value !in held)
    ensures Buffers(more) == (if ok then old(Buffers(given)) + [buf] else old(Buffers(given)))
    ensures buf != null ==> buf !in taken
    ensures wal != null && !replies[|given|].Spills? ==> wal.Log() == old(wal.Log())
  {
    ghost var was := if wal == null then [] else wal.Entries();
    ok, g := GiveServed(messages, msg, p, wal, strict, v, ps, before, replies, given);
    more := if ok then given + [g] else given;
    buf := if g.Some? then g.value.data else null;
    BuffersPush(given, g);
    if ok && wal != null {
      LogStep(start, was, wal, M.CopyOf(v), given, g);
    }
  }

  /** Before the loop nothing has been given. */
  lemma RoundBegins(messages: Pool, msg: Message, ps: seq<WorkerPool>, wal: WalWriter.Writer?, strict: bool)
    requires messages.Valid() && msg !in messages.free && Usable(ps, messages, wal)
    requires wal != null ==> wal.Valid() && Lawful(wal.codec)
    ensures Round(messages, msg, msg.Value(), ps, strict, Channels(ps), Replies(ps, strict), [])
    ensures Booked(wal, if wal == null then [] else wal.Entries(), msg.Value(), [])
    ensures strict ==> forall i :: 0 <= i < |ps| ==> !Replies(ps, strict)[i].Spills?
  {
  }

  /** The loop of `dispatchImpl`: every pool up to the first refusal keeps an equal copy in its channel, an object of
      its own in a new buffer of its own, or, being full and not asked strictly, has it written to the log. A copy
      that was spilt is back in the message pool and may serve the next pool. In strict mode the log is not touched. */
  method Fan(messages: Pool, msg: Message, ps: seq<WorkerPool>, wal: WalWriter.Writer?, strict: bool,
             ghost held: iset<Message>, ghost taken: iset<array?<Byte>>)
    returns (served: nat, ghost given: seq<Option<Message>>)
    requires messages.Valid() && msg !in messages.free && Usable(ps, messages, wal)
    requires wal != null ==> wal.Valid() && Lawful(wal.codec)
    requires Away(messages.free, held)
    modifies messages, messages.free, ps`ch, ps`walFallbacks, wal
    ensures Round(messages, msg, old(msg.Value()), ps, strict, old(Channels(ps)), old(Replies(ps, strict)), given)
    ensures Booked(wal, old(if wal == null then [] else wal.Entries()), old(msg.Value()), given)
    ensures strict && wal != null ==> wal.Log() == old(wal.Log())
    ensures served == |given| <= |ps| && (served < |ps| ==> old(Replies(ps, strict))[served].Refuses?)
    ensures forall x :: x in messages.free ==> x in old(messages.free) || fresh(x)
    ensures Anew(given, Buffers(given), held, taken)
  {
    served, given := 0, [];
    ghost var v, before, replies := msg.Value(), Channels(ps), Replies(ps, strict);
    ghost var start := if wal == null then [] else wal.Entries();
    ghost var bufs := Buffers(given);
    RoundBegins(messages, msg, ps, wal, strict);
    while served < |ps|
      invariant served == |given| <= |ps|
      invariant Round(messages, msg, v, ps, strict, before, replies, given) && Booked(wal, start, v, given)
      invariant strict && wal != null ==> wal.Log() == old(wal.Log())
      invariant Away(messages.free, held) && Buffers(given) == bufs && Anew(given, bufs, held, taken)
      invariant forall x :: x in messages.free ==> x in old(messages.free) || fresh(x)
    {
      var ok;
      ghost var more, g, buf;
      ok, more, g, buf :=
        GiveOn(messages, msg, ps[served], wal, strict, v, ps, before, replies, start, given, held, taken);
      if !ok {
        return;
      }
      AnewPush(given, bufs, g, buf, held, taken);
      served, given, bufs := served + 1, more, bufs + [buf];
    }
  }

  /** Releasing the original touches neither the copies nor what is queued. */
  method ReleaseServed(messages: Pool, msg: Message, ghost given: seq<Option<Message>>, ghost v: M.Message,
                       ghost channels: seq<seq<Message>>)
    requires messages.Valid() && msg !in messages.free && Given(given, v, messages, msg)
    requires Outside(channels, messages.free) && Outside(channels, {msg})
    modifies messages, msg
    ensures messages.free == old(messages.free) + {msg}
    ensures messages.Valid() && msg.Blank() && msg in messages.free && Given(given, v, messages, msg)
    ensures Outside(channels, messages.free)
    ensures Buffers(given) == old(Buffers(given))
  {
    messages.Release(msg);
  }

  /** The loop, and the original released, beside what others hold. */
  method ServeBeside(messages: Pool, msg: Message, ps: seq<WorkerPool>, wal: WalWriter.Writer?, strict: bool,
                     ghost held: iset<Message>, ghost taken: iset<array?<Byte>>)
    returns (served: nat, ghost given: seq<Option<Message>>)
    requires messages.Valid() && msg !in messages.free && Usable(ps, messages, wal)
    requires wal != null ==> wal.Valid() && Lawful(wal.codec)
    requires Outside(Channels(ps), messages.free) && Outside(Channels(ps), {msg})
    requires Away(messages.free, held)
    modifies messages, messages.free, msg, ps`ch, ps`walFallbacks, wal
    ensures messages.Valid() && msg.Blank() && msg in messages.free && Outside(Channels(ps), messages.free)
    ensures served == |given| <= |ps| && (served < |ps| ==> old(Replies(ps, strict))[served].Refuses?)
    ensures Served(old(Channels(ps)), Channels(ps), given) && Given(given, M.CopyOf(old(msg.Value())), messages, msg)
    ensures Matches(old(Replies(ps, strict)), given)
    ensures Booked(wal, old(if wal == null then [] else wal.Entries()), old(msg.Value()), given)
    ensures strict && wal != null ==> wal.Log() == old(wal.Log())
    ensures forall x :: x in messages.free ==> x in old(messages.free) || fresh(x) || x == msg
    ensures Anew(given, Buffers(given), held, taken)
  {
    ghost var v, before := msg.Value(), Channels(ps);
    served, given := Fan(messages, msg, ps, wal, strict, held, taken);
    assert Outside(Channels(ps), messages.free) by {
      assert Outside(before, messages.free);
      ServedOutside(before, Channels(ps), given, messages.free);
    }
    ServedOutside(before, Channels(ps), given, {msg});
    ReleaseServed(messages, msg, given, M.CopyOf(v), Channels(ps));
  }

  /** The same, with others holding everything there is outside the message pool. */
  method Serve(messages: Pool, msg: Message, ps: seq<WorkerPool>, wal: WalWriter.Writer?, strict: bool)
    returns (served: nat, ghost given: seq<Option<Message>>)
    requires messages.Valid() && msg !in messages.free && Usable(ps, messages, wal)
    requires wal != null ==> wal.Valid() && Lawful(wal.codec)
    requires Outside(Channels(ps), messages.free) && Outside(Channels(ps), {msg})
    modifies messages, messages.free, msg, ps`ch, ps`walFallbacks, wal
    ensures messages.Valid() && msg.Blank() && msg in messages.free && Outside(Channels(ps), messages.free)
    ensures served == |given| <= |ps| && (served < |ps| ==> old(Replies(ps, strict))[served].Refuses?)
    ensures Served(old(Channels(ps)), Channels(ps), given) && Given(given, M.CopyOf(old(msg.Value())), messages, msg)
    ensures Matches(old(Replies(ps, strict)), given)
    ensures Booked(wal, old(if wal == null then [] else wal.Entries()), old(msg.Value()), given)
    ensures strict && wal != null ==> wal.Log() == old(wal.Log())
    ensures Drawn(messages, msg, given)
    ensures forall i :: 0 <= i < served && Buffers(given)[i] != null ==> fresh(Buffers(given)[i])
  {
    ghost var held := iset m: Message | m !in messages.free;
    ghost var taken := iset a: array?<Byte> | a != null && 0 <= a.Length;
    served, given := ServeBeside(messages, msg, ps, wal, strict, held, taken);
  }

  // ---------- the dispatcher ----------

  class Dispatcher {
    const messages: Pool
    const wal: WalWriter.Writer?
    /** The pipeline of each project on payloads; `None` is a failed run. */
    const chain: (string, Data) -> Option<Data>
    var pools: map<string, seq<WorkerPool>>

    constructor (messages: Pool, wal: WalWriter.Writer?, chain: (string, Data) -> Option<Data>,
                 pools: map<string, seq<WorkerPool>>)
      ensures this.messages == messages && this.wal == wal && this.chain == chain && this.pools == pools
    {
      this.messages, this.wal, this.chain, this.pools := messages, wal, chain, pools;
    }

    /** The pools of a project: none for an unknown project, nor for the empty name. */
    function Targets(q: string): seq<WorkerPool>
      reads this
    {
      if q != "" && q in pools then pools[q] else []
    }

    ghost predicate Valid(q: string)
      reads this, messages, messages.free, wal, Targets(q)
    {
      && messages.Valid() && (wal != null ==> wal.Valid() && Lawful(wal.codec))
      && Usable(Targets(q), messages, wal) && Outside(Channels(Targets(q)), messages.free)
    }

    /** The caller owns the message: it is neither put back nor in a channel of the project. */
    ghost predicate Owned(msg: Message, q: string)
      reads this, messages, Targets(q)
    {
      msg !in messages.free && Outside(Channels(Targets(q)), {msg})
    }

    /** `DispatchStrict`: nil means each pool of the project gained exactly one equal copy, no two of them the same
        object or sharing a buffer; an error means exactly a proper prefix of them did, up to the first that refuses.
        The log is not written, the message is released. */
    method DispatchStrict(msg: Message) returns (ok: bool, ghost given: seq<Option<Message>>)
      requires Valid(msg.project) && Owned(msg, msg.project)
      modifies messages, messages.free, msg, Targets(msg.project)`ch, Targets(msg.project)`walFallbacks, wal
      ensures Valid(old(msg.project)) && msg.Blank() && msg in messages.free
      ensures wal != null ==> wal.Log() == old(wal.Log())
      ensures forall i :: 0 <= i < |given| && Buffers(given)[i] != null ==> fresh(Buffers(given)[i])
      ensures Drawn(messages, msg, given)
      ensures var q := old(msg.project); var ps := if q != "" && q in pools then pools[q] else [];
        && Served(old(Channels(ps)), Channels(ps), given)
        && Given(given, M.CopyOf(old(msg.Value())), messages, msg)
        && (forall i :: 0 <= i < |given| ==> given[i].Some? && old(Replies(ps, true))[i].Keeps?)
        && (ok <==> ps != [] && |given| == |ps|)
        && (|given| < |ps| ==> old(Replies(ps, true))[|given|].Refuses?)
    {
      given := [];
      var ps := Targets(msg.project);
      if ps == [] {
        messages.Release(msg);
        return false, [];
      }
      var served;
      served, given := Serve(messages, msg, ps, wal, true);
      ok := served == |ps|;
    }

    /** `Dispatch`: the chain runs once, in place; a failed run leaks the message. Otherwise nil means every pool of
        the project keeps an equal copy in its channel, no two of them the same object or sharing a buffer, or had it
        spilt to the log, and an error that a proper prefix did; the log gained exactly the spilt copies that can be
        encoded. */
    method Dispatch(msg: Message) returns (ok: bool, ghost given: seq<Option<Message>>)
      requires Valid(msg.project) && Owned(msg, msg.project)
      modifies messages, messages.free, msg, Targets(msg.project)`ch, Targets(msg.project)`walFallbacks, wal
      ensures Valid(old(msg.project))
      ensures forall i :: 0 <= i < |given| && Buffers(given)[i] != null ==> fresh(Buffers(given)[i])
      ensures Drawn(messages, msg, given)
      ensures var q := old(msg.project); var ps := if q != "" && q in pools then pools[q] else [];
        var d := chain(q, old(msg.Payload()));
        if ps == [] then !ok && given == [] && msg in messages.free
        else if d.None? then !ok && given == [] && msg !in messages.free && messages.free == old(messages.free)
        else
          var v := old(msg.Value()).(data := d.value);
          && msg in messages.free
          && Served(old(Channels(ps)), Channels(ps), given) && Given(given, M.CopyOf(v), messages, msg)
          && Matches(old(Replies(ps, false)), given)
          && Booked(wal, old(if wal == null then [] else wal.Entries()), v, given)
          && (ok <==> |given| == |ps|) && (!ok ==> |given| < |ps| && old(Replies(ps, false))[|given|].Refuses?)
    {
      given := [];
      var ps := Targets(msg.project);
      if ps == [] {
        messages.Release(msg);
        return false, [];
      }
      var d := chain(msg.project, msg.Payload());
      if d.None? {
        return false, [];
      }
      SetPayload(msg, d.value);
      var served;
      served, given := Serve(messages, msg, ps, wal, false);
      ok := served == |ps|;
    }

    /** The processors overwrite the payload with newly encoded text. */
    method SetPayload(msg: Message, d: Data)
      modifies msg`data
      ensures msg.Value() == old(msg.Value()).(data := d)
    {
      if d.None? {
        msg.data := null;
      } else {
        var b := d.value;
        var buf := new Byte[|b|](i requires 0 <= i < |b| => b[i]);
        assert buf[..] == b;
        msg.data := buf;
      }
    }

    /** `ReplayBackoff`: succeeds exactly when every pool of the project would admit a replayed message now, with the
        largest of their delays. */
    method ReplayBackoff(q: string) returns (ok: bool, maxDelay: nat)
      requires Valid(q)
      ensures ok <==> q != "" && q in pools && pools[q] != [] && forall i :: 0 <= i < |pools[q]| ==> Admits(pools[q][i])
      ensures ok ==> forall i :: 0 <= i < |pools[q]| ==> Delay(pools[q][i]) <= maxDelay < 300
      ensures ok ==> maxDelay == 0 || exists i :: 0 <= i < |pools[q]| && Delay(pools[q][i]) == maxDelay
      ensures ok ==> forall i :: 0 <= i < |pools[q]| ==> Replies(pools[q], true)[i].Keeps?
    {
      var ps := Targets(q);
      if ps == [] {
        return false, 0;
      }
      maxDelay := 0;
      for k := 0 to |ps|
        invariant forall i :: 0 <= i < k ==> Admits(ps[i]) && Delay(ps[i]) <= maxDelay
        invariant maxDelay < 300
        invariant maxDelay == 0 || exists i :: 0 <= i < k && Delay(ps[i]) == maxDelay
      {
        var accept, delay := ps[k].CanAcceptReplay();
        if !accept {
          return false, 0;
        }
        if delay > maxDelay {
          maxDelay := delay;
        }
      }
      ok := true;
      AdmittedTake(ps);
    }

    /** An entry rebuilt as a message and dispatched. */
    method DispatchEntry(e: Entry) returns (ok: bool, ghost given: seq<Option<Message>>)
      requires Valid(e.project)
      modifies messages, messages.free, Targets(e.project)`ch, Targets(e.project)`walFallbacks, wal
      ensures Valid(e.project) && (wal != null ==> wal.Log() == old(wal.Log()))
      ensures forall x :: x in messages.free ==> x in old(messages.free) || fresh(x)
      ensures forall i :: 0 <= i < |given| && given[i].Some? ==>
        given[i].value in old(messages.free) || fresh(given[i].value)
      ensures var q := e.project; var ps := if q != "" && q in pools then pools[q] else [];
        && Served(old(Channels(ps)), Channels(ps), given) && Apart(given)
        && (forall i :: 0 <= i < |given| ==> given[i].Some? && given[i].value.Value() == M.CopyOf(M.FromEntry(e)))
        && (ok <==> ps != [] && |given| == |ps|)
        && (|given| < |ps| ==> old(Replies(ps, true))[|given|].Refuses?)
    {
      ghost var ps := Targets(e.project);
      ghost var before, replies := Channels(ps), Replies(ps, true);
      var msg := messages.FromEntry(e);
      assert Channels(ps) == before && Replies(ps, true) == replies;
      ok, given := DispatchStrict(msg);
    }

    /** The replay callback with no step of anyone else in between. Admission is sound: once `ReplayBackoff` has
        succeeded, no pool refuses. So the callback is all or nothing. */
    method OnReplay(e: Entry) returns (ok: bool, ghost given: seq<Option<Message>>)
      requires Valid(e.project)
      modifies messages, messages.free, Targets(e.project)`ch, Targets(e.project)`walFallbacks, wal
      ensures Valid(e.project) && (wal != null ==> wal.Log() == old(wal.Log()))
      ensures forall x :: x in messages.free ==> x in old(messages.free) || fresh(x)
      ensures forall i :: 0 <= i < |given| && given[i].Some? ==>
        given[i].value in old(messages.free) || fresh(given[i].value)
      ensures var q := e.project; var ps := if q != "" && q in pools then pools[q] else [];
        ok <==> ps != [] && forall i :: 0 <= i < |ps| ==> old(Admits(ps[i]))
      ensures var q := e.project; var ps := if q != "" && q in pools then pools[q] else [];
        && Served(old(Channels(ps)), Channels(ps), given) && Apart(given)
        && |given| == (if ok then |ps| else 0)
        && (forall i :: 0 <= i < |given| ==> given[i].Some? && given[i].value.Value() == M.CopyOf(M.FromEntry(e)))
    {
      var delay;
      ok, delay := ReplayBackoff(e.project);
      if !ok {
        return false, [];
      }
      ok, given := DispatchEntry(e);
    }
  }

  /** The pool is open, its circuit closed, and its channel below four fifths full. */
  predicate Admits(p: WorkerPool)
    reads p
  {
    !p.closed && !p.circuitOpen && 5 * |p.ch| < 4 * p.cfg.capacity
  }

  ghost function Delay(p: WorkerPool): (d: nat)
    requires P.Proper(p.cfg) && Admits(p)
    reads p
    ensures P.DelayFits(|p.ch|, p.cfg.capacity, d)
  {
    P.AdmittedExactly(p.cfg, p.State());
    P.DelayExactly(p.cfg, p.State());
    P.CanAcceptReplay(p.cfg, p.State()).delayMs
  }

  lemma AdmittedTake(ps: seq<WorkerPool>)
    requires forall i :: 0 <= i < |ps| ==> P.Proper(ps[i].cfg) && Admits(ps[i])
    ensures forall i :: 0 <= i < |ps| ==> Replies(ps, true)[i].Keeps?
  {
  }
}
