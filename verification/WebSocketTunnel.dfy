/**
 * WebSocket messages inside the tunnel (internal/httpgateway/websocket.go): how a message is cut into
 * chunks, and how the accepting side puts chunks together again.
 */
module WebSocketTunnel {
  import opened Bytes
  import FrameCodec

  const CHUNK: nat := FrameCodec.CHUNK
  const WINDOW: nat := 65536
  const MAX_MESSAGE: nat := 0x10_0000

  datatype Kind = Text | Binary

  function KindByte(k: Kind): Byte {
    if k == Text then 1 else 2
  }

  datatype Message = Message(kind: Kind, data: seq<Byte>)

  // ---- putting chunks together ---------------------------------------------------------------

  /** The partial message of a socket. */
  datatype Assembly = Assembly(kind: Kind, data: seq<Byte>)

  datatype ChunkError = BadChunk | BadKind | BadFlag | MixedKinds

  datatype Assembled =
    | Partial(next: Assembly)
    | Whole(message: Message)        // nothing is left of the partial message
    | TooLong                        // the socket is dropped, the gateway goes on
    | Invalid(error: ChunkError)     // the gateway is closed

  function Assemble(a: Assembly, chunk: seq<Byte>): Assembled {
    if |chunk| < 2 || |chunk| > CHUNK then Invalid(BadChunk)
    else if chunk[0] != KindByte(Text) && chunk[0] != KindByte(Binary) then Invalid(BadKind)
    else
      var kind := if chunk[0] == KindByte(Text) then Text else Binary;
      if chunk[1] > 1 then Invalid(BadFlag)
      else if a.data != [] && a.kind != kind then Invalid(MixedKinds)
      else if |a.data| + |chunk| - 2 > MAX_MESSAGE then TooLong
      else
        var data := a.data + chunk[2..];
        if chunk[1] == 1 then Whole(Message(kind, data)) else Partial(Assembly(kind, data))
  }

  /**
   * Exactly which chunks are invalid: too short or too long, of no known kind or flag, or of another kind than
   * the message they go on. Of the others, those that make the message longer than 1 MiB cost the socket its
   * life; and a flag of 1 makes the message whole.
   */
  lemma AssembleIff(a: Assembly, chunk: seq<Byte>)
    ensures var r := Assemble(a, chunk);
      && (r.Invalid? <==>
            || |chunk| < 2 || |chunk| > 16384 || chunk[0] !in {1, 2} || chunk[1] !in {0, 1}
            || (a.data != [] && chunk[0] != KindByte(a.kind)))
      && (r.TooLong? <==> !r.Invalid? && |a.data + chunk[2..]| > 1024 * 1024)
      && (r.Whole? <==> !r.Invalid? && !r.TooLong? && chunk[1] == 1)
      && (r.Whole? ==> KindByte(r.message.kind) == chunk[0] && r.message.data == a.data + chunk[2..])
      && (r.Partial? ==> KindByte(r.next.kind) == chunk[0] && r.next.data == a.data + chunk[2..])
  {
  }

  /** All chunks in turn: the messages completed, and the partial message unless the socket is gone. */
  datatype Received = Received(messages: seq<Message>, last: Assembled)

  function ReceiveAll(a: Assembly, chunks: seq<seq<Byte>>): Received
    decreases |chunks|
  {
    if chunks == [] then Received([], Partial(a))
    else
      var r := Assemble(a, chunks[0]);
      match r
      case Partial(next) => ReceiveAll(next, chunks[1..])
      case Whole(m) =>
        var rest := ReceiveAll(Assembly(m.kind, []), chunks[1..]);
        Received([m] + rest.messages, rest.last)
      case _ => Received([], r)
  }

  /** The receiving side of one socket, as the accepting goroutine updates it. */
  class Receiver {
    var kind: Kind
    var message: seq<Byte>

    constructor ()
      ensures message == []
    {
      kind, message := Text, [];
    }

    method AcceptChunk(chunk: seq<Byte>) returns (r: Assembled)
      modifies this
      ensures r == Assemble(Assembly(old(kind), old(message)), chunk)
      ensures r.Partial? ==> Assembly(kind, message) == r.next
      ensures r.Whole? || r.TooLong? ==> message == []
      ensures r.Invalid? ==> message == old(message)
    {
      if |chunk| < 2 || |chunk| > CHUNK {
        return Invalid(BadChunk);
      }
      var k := Binary;
      if chunk[0] == KindByte(Text) {
        k := Text;
      } else if chunk[0] != KindByte(Binary) {
        return Invalid(BadKind);
      }
      if chunk[1] > 1 {
        return Invalid(BadFlag);
      }
      if message == [] {
        kind := k;
      } else if kind != k {
        return Invalid(MixedKinds);
      }
      if |message| + |chunk| - 2 > MAX_MESSAGE {
        message := [];
        return TooLong;
      }
      message := message + chunk[2..];
      if chunk[1] == 1 {
        r := Whole(Message(kind, message));
        message := [];
      } else {
        r := Partial(Assembly(kind, message));
      }
    }
  }

  // ---- cutting a message ---------------------------------------------------------------------

  function Fragment(m: Message, from: nat, to: nat): seq<Byte>
    requires from <= to <= |m.data|
  {
    [KindByte(m.kind), if to == |m.data| then 1 else 0] + m.data[from..to]
  }

  /**
   * `chunks` carry the octets of `m` from `from` on, in order and without gaps, each within a frame and
   * none of them empty-handed; the last one, and only it, is flagged final.
   */
  ghost predicate Covers(m: Message, from: nat, chunks: seq<seq<Byte>>)
    requires from <= |m.data|
    decreases |chunks|
  {
    if chunks == [] then false
    else
      var to := from + |chunks[0]| - 2;
      && from <= to <= |m.data| && (from < to || m.data == []) && |chunks[0]| <= CHUNK
      && chunks[0] == Fragment(m, from, to)
      && if to == |m.data| then chunks[1..] == [] else Covers(m, to, chunks[1..])
  }

  /** The assembler takes the next piece of a message for what it is. */
  lemma AssembleFragment(a: Assembly, m: Message, from: nat, to: nat)
    requires from <= to <= |m.data| <= MAX_MESSAGE && to - from <= CHUNK - 2
    requires a.data == m.data[..from] && (from > 0 ==> a.kind == m.kind)
    ensures Assemble(a, Fragment(m, from, to)) ==
      if to == |m.data| then Whole(m) else Partial(Assembly(m.kind, m.data[..to]))
  {
    assert m.data[..from] + m.data[from..to] == m.data[..to];
    assert to == |m.data| ==> m.data[..to] == m.data;
  }

  /** A cut message is put together again, from any point on, whatever sizes the credit dictated. */
  lemma {:induction false} CoveredIsReassembled(m: Message, from: nat, chunks: seq<seq<Byte>>, a: Assembly, rest: seq<seq<Byte>>)
    requires |m.data| <= MAX_MESSAGE && from <= |m.data| && Covers(m, from, chunks)
    requires a.data == m.data[..from] && (from > 0 ==> a.kind == m.kind)
    ensures var r := ReceiveAll(Assembly(m.kind, []), rest);
      ReceiveAll(a, chunks + rest) == Received([m] + r.messages, r.last)
    decreases |chunks|
  {
    hide Assemble, Fragment;
    var to := from + |chunks[0]| - 2;
    var all := chunks + rest;
    assert all[0] == chunks[0] && all[1..] == chunks[1..] + rest;
    AssembleFragment(a, m, from, to);
    if to == |m.data| {
      assert chunks[1..] + rest == rest;
    } else {
      CoveredIsReassembled(m, to, chunks[1..], Assembly(m.kind, m.data[..to]), rest);
    }
  }

  ghost predicate CutsOf(messages: seq<Message>, cuts: seq<seq<seq<Byte>>>) {
    |cuts| == |messages| && forall i | 0 <= i < |messages| :: Covers(messages[i], 0, cuts[i])
  }

  function Joined(cuts: seq<seq<seq<Byte>>>): seq<seq<Byte>> {
    if cuts == [] then [] else cuts[0] + Joined(cuts[1..])
  }

  /**
   * Round trip: any messages of at most 1 MiB, empty ones included, cut in any way into chunks, give
   * the accepting side the same messages, kinds and octets, and leave it with nothing half received.
   */
  lemma {:induction false} RoundTrip(messages: seq<Message>, cuts: seq<seq<seq<Byte>>>, a: Assembly)
    requires forall m | m in messages :: |m.data| <= MAX_MESSAGE
    requires CutsOf(messages, cuts) && a.data == []
    ensures var r := ReceiveAll(a, Joined(cuts));
      r.messages == messages && r.last.Partial? && r.last.next.data == []
  {
    if messages != [] {
      var m := messages[0];
      CoveredIsReassembled(m, 0, cuts[0], a, Joined(cuts[1..]));
      RoundTrip(messages[1..], cuts[1..], Assembly(m.kind, []));
    }
  }
}
