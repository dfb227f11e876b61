/** The buffers and sockets that carry the wire format, as both ends use them. */
module Chunker {
  import opened Storage
  import opened Wire

  /** `chunk_t`. */
  class Chunk {
    var bytes: Bytes

    constructor ()
      ensures bytes == []
    {
      bytes := [];
    }

    /** `chunk_add`. */
    method Add(content: Bytes)
      modifies this
      ensures bytes == old(bytes) + content
    {
      bytes := bytes + content;
    }

    /** `chunk_add_variable`. */
    method AddVariable(content: Bytes)
      modifies this
      ensures bytes == old(bytes) + Variable(content)
    {
      Add(Size(|content|));
      Add(content);
    }

    /** The chunk that is built for each kind of notice. */
    method AddNotice(m: Notice)
      requires bytes == []
      modifies this
      ensures bytes == NoticeBytes(m)
    {
      Add(Int(NoticeCode(m)));
      match m {
        case SetNotice(status, used) =>
          Add(Int(status));
          Add(Size(used));
          OneAfterAnother(Int(1), Int(status), Size(used));
        case StoreNotice(status) =>
          Add(Int(status));
          OneAfterAnother(Int(2), Int(status), []);
        case ValueNotice(v) =>
          Add(Int(STATUS_OK));
          AddVariable(v + [0]);
          OneAfterAnother(Int(3), Int(STATUS_OK), Text(v));
        case NoValueNotice =>
          Add(Int(STATUS_REPLACED));
          OneAfterAnother(Int(3), Int(STATUS_REPLACED), []);
        case AliveNotice =>
          OneAfterAnother(Int(4), [], []);
      }
    }
  }

  lemma OneAfterAnother(a: Bytes, b: Bytes, c: Bytes)
    ensures [] + a + b + c == a + (b + c)
    ensures [] + a + b == a + b && [] + a == a
  {
  }

  /** One end of a connection: what has been handed to it to send, and what is there to receive.
      The i-th `send` takes as many bytes as the system feels like, or fails (-1). */
  class Connection {
    const accepts: nat -> int
    var sends: nat
    var outgoing: Bytes
    var incoming: Bytes

    constructor (accepts: nat -> int, incoming: Bytes)
      ensures this.accepts == accepts && this.incoming == incoming && outgoing == [] && sends == 0
    {
      this.accepts := accepts;
      this.incoming := incoming;
      outgoing, sends := [], 0;
    }

    /** The system call: some of the bytes, at least one if there are any. */
    method Send(bytes: Bytes) returns (n: int)
      modifies this`sends, this`outgoing
      ensures sends == old(sends) + 1
      ensures n == -1 || (0 <= n <= |bytes| && (bytes != [] ==> n >= 1))
      ensures outgoing == old(outgoing) + (if n == -1 then [] else bytes[..n])
      ensures n == -1 <==> accepts(old(sends)) < 0
      ensures accepts(old(sends)) >= |bytes| ==> n == |bytes|
    {
      var a := accepts(sends);
      sends := sends + 1;
      n := if a < 0 then -1 else if a >= |bytes| then |bytes| else if a == 0 then 1 else a;
      outgoing := outgoing + if n == -1 then [] else bytes[..n];
    }

    /** `chunk_send`: the rest is sent again until everything has gone. */
    method ChunkSend(bytes: Bytes) returns (r: int)
      modifies this`sends, this`outgoing
      ensures r != -1 ==> outgoing == old(outgoing) + bytes
      ensures r == -1 ==> exists n :: 0 <= n <= |bytes| && outgoing == old(outgoing) + bytes[..n]
      ensures (forall i :: accepts(i) >= 0) ==> r != -1
      decreases |bytes|
    {
      ghost var was := outgoing;
      r := Send(bytes);
      if r == -1 {
        assert outgoing == was + bytes[..0];
      } else if r < |bytes| {
        var n := r;
        r := ChunkSend(bytes[n..]);
        if r == -1 {
          ghost var m :| 0 <= m <= |bytes[n..]| && outgoing == was + bytes[..n] + bytes[n..][..m];
          assert bytes[..n] + bytes[n..][..m] == bytes[..n + m];
          assert outgoing == was + bytes[..n + m];
        } else {
          assert bytes[..n] + bytes[n..] == bytes;
        }
      } else {
        assert bytes[..r] == bytes;
      }
    }

    /** `chunk_recv`: a short stream is a failure. */
    method ChunkRecv(n: nat) returns (data: Option<Bytes>)
      modifies this`incoming
      ensures match Recv(old(incoming), n)
              case Failed => data == None
              case Received(bs, rest) => data == Some(bs) && incoming == rest
    {
      if |incoming| < n {
        data, incoming := None, [];
      } else {
        data, incoming := Some(incoming[..n]), incoming[n..];
      }
    }

    /** `chunk_recv_variable`. */
    method ChunkRecvVariable() returns (data: Option<Bytes>)
      modifies this`incoming
      ensures match RecvVariable(old(incoming))
              case Failed => data == None
              case Received(bs, rest) => data == Some(bs) && incoming == rest
    {
      var size := ChunkRecv(SIZE_WIDTH);
      if size.None? {
        return None;
      }
      data := ChunkRecv(FromLittleEndian(size.value));
    }

    method RecvTextOnly() returns (t: Option<Bytes>)
      modifies this`incoming
      ensures match RecvText(old(incoming))
              case Failed => t == None
              case Received(bs, rest) => t == Some(bs) && incoming == rest
    {
      var buffer := ChunkRecvVariable();
      t := if buffer.None? then None else Some(AsText(buffer.value));
    }

    /** `chunk_recv_list` of texts, after the count. */
    method RecvTextList(n: nat) returns (ts: Option<seq<Bytes>>)
      modifies this`incoming
      ensures match RecvTexts(old(incoming), n)
              case Failed => ts == None
              case Received(all, rest) => ts == Some(all) && incoming == rest
    {
      ghost var stream := incoming;
      var got: seq<Bytes> := [];
      for i := 0 to n
        invariant RecvTexts(stream, i) == Received(got, incoming)
      {
        var t := RecvTextOnly();
        if t.None? {
          FailsLater(stream, i + 1, n);
          return None;
        }
        got := got + [t.value];
      }
      ts := Some(got);
    }

    /** `coordinator_api_handshake_receive_config`. */
    method ReceiveConfig() returns (c: Option<Config>)
      modifies this`incoming
      ensures match RecvConfig(old(incoming))
              case Failed => c == None
              case Received(config, rest) => c == Some(config) && incoming == rest
    {
      var entrySize := ChunkRecv(SIZE_WIDTH);
      if entrySize.None? {
        return None;
      }
      var entries := ChunkRecv(SIZE_WIDTH);
      if entries.None? {
        return None;
      }
      var n := ChunkRecv(SIZE_WIDTH);
      if n.None? {
        return None;
      }
      var keys := RecvTextList(FromLittleEndian(n.value));
      c := if keys.None? then None
           else Some(Config(FromLittleEndian(entrySize.value), FromLittleEndian(entries.value), keys.value));
    }

    /** `coordinator_api_receive_header` and what follows it for each request. */
    method ReceiveRequest() returns (m: Option<Request>)
      modifies this`incoming
      ensures match RecvRequest(old(incoming))
              case Failed => m == None
              case Received(request, rest) => m == Some(request) && incoming == rest
    {
      var header := ChunkRecv(INT_WIDTH);
      if header.None? {
        return None;
      }
      var code := ToInt(FromLittleEndian(header.value));
      if code == 1 {
        m := ReceiveSet();
      } else if code == 2 || code == 4 {
        var k := RecvTextOnly();
        m := if k.None? then None else Some(if code == 2 then StoreRequest(k.value) else ValueRequest(k.value));
      } else {
        m := if code == 3 then Some(CompactRequest)
             else if code == 5 then Some(AliveRequest)
             else if code == 6 then Some(KillRequest)
             else None;
      }
    }

    /** `coordinator_api_receive_set`. */
    method ReceiveSet() returns (m: Option<Request>)
      modifies this`incoming
      ensures match RecvSet(old(incoming))
              case Failed => m == None
              case Received(request, rest) => m == Some(request) && incoming == rest
    {
      var flag := ChunkRecv(1);
      if flag.None? {
        return None;
      }
      var key := RecvTextOnly();
      if key.None? {
        return None;
      }
      var value := RecvTextOnly();
      m := if value.None? then None else Some(SetRequest(flag.value[0] != 0, ShortKey(key.value), value.value));
    }

    /** `coordinator_api_notify_set`, `_notify_status`, `_notify_key_value` and `_notify_header`. */
    method Notify(m: Notice) returns (r: int)
      modifies this`sends, this`outgoing
      ensures r != -1 ==> outgoing == old(outgoing) + NoticeBytes(m)
      ensures (forall i :: accepts(i) >= 0) ==> r != -1
    {
      var chunk := new Chunk();
      chunk.AddNotice(m);
      r := ChunkSend(chunk.bytes);
    }

    /** The Coordinador sends a request block by block, and gives up when a block does not go
        in one piece: then a part of the request has gone, from its beginning. */
    method SendRequest(m: Request) returns (ok: bool)
      modifies this`sends, this`outgoing
      ensures ok ==> outgoing == old(outgoing) + RequestBytes(m)
      ensures !ok ==> exists n :: 0 <= n <= |RequestBytes(m)| && outgoing == old(outgoing) + RequestBytes(m)[..n]
      ensures (forall i, b :: b in Blocks(m) ==> accepts(i) >= |b|) ==> ok
    {
      BlocksAre(m);
      ok := SendBlocks(Blocks(m));
    }

    method SendBlocks(blocks: seq<Bytes>) returns (ok: bool)
      modifies this`sends, this`outgoing
      ensures ok ==> outgoing == old(outgoing) + Joined(blocks)
      ensures !ok ==> exists n :: 0 <= n <= |Joined(blocks)| && outgoing == old(outgoing) + Joined(blocks)[..n]
      ensures (forall i, b :: b in blocks ==> accepts(i) >= |b|) ==> ok
    {
      ghost var was := outgoing;
      assert blocks[..0] == [] && was + [] == was;
      for i := 0 to |blocks|
        invariant outgoing == was + Joined(blocks[..i])
      {
        JoinedNext(blocks, i);
        var n := Send(blocks[i]);
        if n != |blocks[i]| {
          ghost var m := PartGone(blocks, i, if n == -1 then 0 else n);
          assert outgoing == was + (Joined(blocks[..i]) + if n == -1 then [] else blocks[i][..n]);
          return false;
        }
        assert blocks[i][..n] == blocks[i];
      }
      assert blocks[..|blocks|] == blocks;
      ok := true;
    }
  }

  /** The blocks that a request is sent in. */
  function Blocks(m: Request): seq<Bytes> {
    var code := Int(RequestCode(m));
    match m
    case SetRequest(isNew, k, v) => [code, Flag(isNew), Size(|k| + 1), k + [0], Size(|v| + 1), v + [0]]
    case StoreRequest(k) => [code, Size(|k| + 1), k + [0]]
    case ValueRequest(k) => [code, Size(|k| + 1), k + [0]]
    case _ => [code]
  }

  function Joined(blocks: seq<Bytes>): Bytes {
    if blocks == [] then [] else Joined(blocks[..|blocks| - 1]) + blocks[|blocks| - 1]
  }

  lemma JoinedNext(blocks: seq<Bytes>, i: nat)
    requires i < |blocks|
    ensures Joined(blocks[..i + 1]) == Joined(blocks[..i]) + blocks[i]
  {
    assert blocks[..i + 1][..i] == blocks[..i];
  }

  lemma {:induction false} JoinedPrefix(blocks: seq<Bytes>, i: nat)
    requires i <= |blocks|
    ensures Joined(blocks[..i]) <= Joined(blocks)
    decreases |blocks| - i
  {
    if i == |blocks| {
      assert blocks[..i] == blocks;
    } else {
      JoinedPrefix(blocks, i + 1);
      JoinedNext(blocks, i);
    }
  }

  /** The blocks before i and n bytes of the i-th are the first m bytes of them all. */
  lemma PartGone(blocks: seq<Bytes>, i: nat, n: nat) returns (m: nat)
    requires i < |blocks| && n <= |blocks[i]|
    ensures m <= |Joined(blocks)| && Joined(blocks)[..m] == Joined(blocks[..i]) + blocks[i][..n]
  {
    JoinedPrefix(blocks, i + 1);
    JoinedNext(blocks, i);
    m := |Joined(blocks[..i])| + n;
  }

  lemma JoinedThree(a: Bytes, b: Bytes, c: Bytes)
    ensures Joined([a, b, c]) == a + (b + c)
  {
    assert [a, b, c][..2] == [a, b] && [a, b][..1] == [a] && [a][..0] == [];
    assert Joined([a]) == a;
  }

  lemma JoinedSix(x: seq<Bytes>, a: Bytes, b: Bytes, c: Bytes, d: Bytes, e: Bytes, f: Bytes)
    requires x == [a, b, c, d, e, f]
    ensures Joined(x) == a + (b + ((c + d) + (e + f)))
  {
    JoinedNext(x, 5);
    JoinedNext(x, 4);
    JoinedNext(x, 3);
    assert x[..3] == [a, b, c] && x[..6] == x;
    JoinedThree(a, b, c);
  }

  lemma BlocksAre(m: Request)
    ensures Joined(Blocks(m)) == RequestBytes(m)
  {
    var code := Int(RequestCode(m));
    match m
    case SetRequest(isNew, k, v) =>
      JoinedSix(Blocks(m), code, Flag(isNew), Size(|k| + 1), k + [0], Size(|v| + 1), v + [0]);
    case StoreRequest(k) => JoinedThree(code, Size(|k| + 1), k + [0]);
    case ValueRequest(k) => JoinedThree(code, Size(|k| + 1), k + [0]);
    case _ => assert Blocks(m)[..0] == [];
  }

  lemma {:induction false} FailsLater(stream: Bytes, i: nat, n: nat)
    requires i <= n && RecvTexts(stream, i) == Failed
    ensures RecvTexts(stream, n) == Failed
    decreases n
  {
    if i < n {
      FailsLater(stream, i, n - 1);
    }
  }
}
