/** Messages as values: the WAL entry of a message, the message of an entry, and what a sink gets to see. */
module Messages {
  import opened Bags
  import opened Framing
  import opened Codecs

  datatype Message = Message(
    requestId: string,
    traceId: string,
    project: string,
    router: string,
    data: Data,
    env: string,
    headers: map<string, string>,
    timestamp: int)

  const BLANK := Message("", "", "", "", None, "", map[], 0)

  /** `WriteMessage`: headers are not recorded. */
  function EntryOf(m: Message): Entry {
    Entry(0, m.project, m.router, m.data, m.requestId, m.traceId, m.timestamp, m.env)
  }

  /** `messageFromWALEntry` on a blank message. */
  function FromEntry(e: Entry): Message {
    BLANK.(requestId := e.requestId, traceId := e.traceId, project := e.project, router := e.router,
           data := e.data, timestamp := e.timestamp, env := e.env)
  }

  /** `copyMessage` on a blank message: an empty payload becomes the nil slice. */
  function CopyOf(m: Message): Message {
    m.(data := if m.data == Some([]) then None else m.data)
  }

  datatype Envelope = Envelope(
    requestId: string,
    traceId: string,
    receivedAt: int,
    env: string,
    project: string,
    router: string,
    data: Data)

  function BuildEnvelope(m: Message): Envelope {
    Envelope(m.requestId, m.traceId, m.timestamp, m.env, m.project, m.router, m.data)
  }

  /** The envelope as the sink marshals it: the payload appears in its compact text. */
  function Wire(c: Codec, v: Envelope): Envelope {
    v.(data := Some(c.compact(v.data)))
  }

  /** What a sink sees of a message that was handed out as a copy. */
  function WireOf(c: Codec, m: Message): Envelope {
    Wire(c, BuildEnvelope(CopyOf(m)))
  }

  lemma WireOfCopy(c: Codec, m: Message)
    ensures WireOf(c, CopyOf(m)) == WireOf(c, m) && CopyOf(m).project == m.project
  {
  }

  lemma WireOfNormal(c: Codec, m: Message)
    requires Lawful(c) && Encodable(c, EntryOf(m))
    ensures WireOf(c, FromEntry(Normal(c, EntryOf(m)))) == WireOf(c, m)
    ensures Normal(c, EntryOf(m)).project == m.project && Normal(c, EntryOf(m)).sequence == 0
  {
    assert LawfulAt(c, EntryOf(m));
  }

  /** The WAL detour is invisible: written as a record behind any complete file, scanned, decoded and
      rebuilt, a message produces the same envelope, although its headers are gone. */
  lemma DetourInvisible(c: Codec, file: Bytes, m: Message)
    requires Lawful(c) && Terminated(file) && Encodable(c, EntryOf(m))
    ensures var es := Entries(c, file + Record(c, EntryOf(m)));
      && |es| == |Entries(c, file)| + 1
      && WireOf(c, FromEntry(es[|es| - 1])) == WireOf(c, m)
      && FromEntry(es[|es| - 1]).headers == map[]
      && FromEntry(es[|es| - 1]).data == Some(c.compact(m.data))
  {
    EntriesAppend(c, file, Record(c, EntryOf(m)));
    RecordEntries(c, EntryOf(m));
    WireOfNormal(c, m);
  }
}
