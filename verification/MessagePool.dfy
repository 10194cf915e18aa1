/** Message objects and the pool they are recycled through. What the pool hands out is blank, which is what makes
    filling in only some fields an exact copy. */
module MessagePool {
  import opened Bags
  import opened Framing
  import opened Codecs
  import M = Messages

  class Message {
    var requestId: string
    var traceId: string
    var project: string
    var router: string
    var data: array?<Byte>
    var env: string
    var headers: map<string, string>
    var timestamp: int

    constructor ()
      ensures Blank() && headers == map[]
    {
      requestId, traceId, project, router, data, env, headers, timestamp := "", "", "", "", null, "", map[], 0;
    }

    function Payload(): Data
      reads this, data
    {
      if data == null then None else Some(data[..])
    }

    function Value(): M.Message
      reads this, data
    {
      M.Message(requestId, traceId, project, router, Payload(), env, headers, timestamp)
    }

    predicate Blank()
      reads this
    {
      requestId == "" && traceId == "" && project == "" && router == "" && data == null && env == "" && headers == map[]
      && timestamp == 0
    }
  }

  class Pool {
    var free: set<Message>

    ghost predicate Valid()
      reads this, free
    {
      forall m :: m in free ==> m.Blank()
    }

    constructor ()
      ensures Valid() && free == {}
    {
      free := {};
    }

    /** `AcquireMessage`: some object put back earlier, or a new one. */
    method Acquire() returns (m: Message)
      requires Valid()
      modifies this
      ensures Valid() && m.Blank() && m.Value() == M.BLANK && m !in free
      ensures (m in old(free) && free == old(free) - {m}) || (fresh(m) && free == old(free))
    {
      if * {
        m := new Message();
      } else if free == {} {
        m := new Message();
      } else {
        m :| m in free;
        free := free - {m};
      }
    }

    /** `ReleaseMessage`: the object is blanked in place and put back; nil is ignored. The caller owns it: it
        has not been put back yet. */
    method Release(msg: Message?)
      requires Valid() && msg !in free
      modifies this, msg
      ensures Valid()
      ensures msg == null ==> free == old(free)
      ensures msg != null ==> msg.Blank() && msg.Value() == M.BLANK && free == old(free) + {msg}
    {
      if msg == null {
        return;
      }
      msg.requestId, msg.traceId, msg.project, msg.router := "", "", "", "";
      msg.data, msg.env := null, "";
      var todo := msg.headers.Keys;
      while todo != {}
        invariant todo == msg.headers.Keys && free == old(free) && Valid()
        invariant msg.requestId == msg.traceId == msg.project == msg.router == msg.env == "" && msg.data == null
        decreases todo
      {
        var k :| k in todo;
        msg.headers := msg.headers - {k};
        todo := todo - {k};
      }
      assert msg.headers == map[];
      msg.timestamp := 0;
      free := free + {msg};
    }

    method CopyBytes(src: array<Byte>) returns (buf: array<Byte>)
      ensures fresh(buf) && buf[..] == src[..]
    {
      buf := new Byte[src.Length];
      for i := 0 to src.Length
        invariant buf[..i] == src[..i]
      {
        buf[i] := src[i];
        assert buf[..i + 1] == buf[..i] + [src[i]];
      }
      assert buf[..] == buf[..src.Length] && src[..] == src[..src.Length];
    }

    /** `copyMessage`: equal contents in a buffer of its own; an empty payload comes out as nil. */
    method Copy(src: Message) returns (dst: Message)
      requires Valid() && src !in free
      modifies this, free
      ensures Valid() && dst !in free && dst != src
      ensures dst.Value() == M.CopyOf(old(src.Value())) && dst.Value().headers == dst.headers == old(src.headers)
      ensures dst.data != null ==> fresh(dst.data)
      ensures (dst in old(free) && free == old(free) - {dst}) || (fresh(dst) && free == old(free))
    {
      dst := Acquire();
      Fill(dst, src);
    }

    method Fill(dst: Message, src: Message)
      requires dst.Blank() && dst != src
      modifies dst
      ensures dst.Value() == M.CopyOf(src.Value()) && dst.Value().headers == dst.headers == src.headers
      ensures dst.data != null ==> fresh(dst.data)
    {
      ghost var was := src.Value();
      assert src.data != null ==> was.data == Some(src.data[..]) && |was.data.value| == src.data.Length;
      assert src.data != null && src.data.Length == 0 ==> was.data.value == [];
      dst.requestId, dst.traceId, dst.project, dst.router := src.requestId, src.traceId, src.project, src.router;
      if src.data != null && src.data.Length > 0 {
        dst.data := CopyBytes(src.data);
      }
      assert dst.Payload() == M.CopyOf(was).data;
      dst.timestamp, dst.env := src.timestamp, src.env;
      CopyHeaders(dst, src.headers);
      assert src.Value() == was;
    }

    /** Ranging over a Go map: any order. */
    method CopyHeaders(dst: Message, headers: map<string, string>)
      requires dst.headers == map[]
      modifies dst`headers
      ensures dst.headers == headers
    {
      var todo := headers.Keys;
      while todo != {}
        invariant todo <= headers.Keys
        invariant dst.headers == map k | k in headers && k !in todo :: headers[k]
        decreases todo
      {
        var k :| k in todo;
        dst.headers := dst.headers[k := headers[k]];
        todo := todo - {k};
      }
      assert dst.headers == headers;
    }

    /** `messageFromWALEntry`: the headers stay blank. */
    method FromEntry(e: Entry) returns (m: Message)
      requires Valid()
      modifies this, free
      ensures Valid() && m !in free && m.Value() == M.FromEntry(e)
      ensures m.data != null ==> fresh(m.data)
      ensures (m in old(free) && free == old(free) - {m}) || (fresh(m) && free == old(free))
    {
      m := Acquire();
      m.requestId, m.traceId, m.project, m.router := e.requestId, e.traceId, e.project, e.router;
      if e.data.Some? {
        var v := e.data.value;
        var buf := new Byte[|v|](i requires 0 <= i < |v| => v[i]);
        assert buf[..] == v;
        m.data := buf;
      }
      m.timestamp, m.env := e.timestamp, e.env;
    }
  }
}
