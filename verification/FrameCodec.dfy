/** The binary framing of the HTTP tunnel (internal/httpgateway/protocol.go). */
module FrameCodec {
  import opened Bytes
  import opened Options

  const VERSION: Byte := 2
  const START: Byte := 1
  const BODY: Byte := 2
  const END: Byte := 3
  const CANCEL: Byte := 4
  const RESPONSE_START: Byte := 5
  const RESPONSE_BODY: Byte := 6
  const RESPONSE_END: Byte := 7
  const RESPONSE_ERROR: Byte := 8
  const UPLOAD_CREDIT: Byte := 9
  const DOWNLOAD_CREDIT: Byte := 10
  const WS_TEXT: Byte := 13
  const WS_BINARY: Byte := 14

  const CHUNK: nat := 16384
  const WINDOW: nat := 4 * CHUNK
  const MAX_METADATA: nat := CHUNK
  const HEADER: nat := 10

  datatype Frame = Frame(kind: Byte, id: nat, data: seq<Byte>)

  /** What WriteFrame accepts; the identifier is a non-zero uint32. */
  predicate Valid(f: Frame) {
    |f.data| <= CHUNK && 0 < f.id < UINT32_RANGE
  }

  function Header(f: Frame): (h: seq<Byte>)
    ensures |h| == HEADER
  {
    [VERSION, f.kind] + BigEndian(f.id, 4) + BigEndian(|f.data|, 4)
  }

  function Encode(f: Frame): seq<Byte> {
    Header(f) + f.data
  }

  datatype ReadError = EndOfStream | UnexpectedEnd | InvalidFrame

  /** The outcome of one ReadFrame on a stream, with what is left of the stream. */
  datatype Decoded =
    | Got(frame: Frame, rest: seq<Byte>)
    | Failed(error: ReadError, rest: seq<Byte>)

  /** io.ReadFull: exactly `want` octets, or an error that tells nothing from something. */
  datatype Full = Full(data: seq<Byte>, error: Option<ReadError>)
  function ReadFullOf(stream: seq<Byte>, want: nat): Full {
    if want <= |stream| then Full(stream[..want], None)
    else if stream == [] then Full([], Some(EndOfStream))
    else Full(stream, Some(UnexpectedEnd))
  }

  function Decode(stream: seq<Byte>): Decoded {
    var head := ReadFullOf(stream, HEADER);
    if head.error.Some? then Failed(head.error.value, stream[|head.data|..])
    else
      var h, rest := head.data, stream[HEADER..];
      var n, id := Value(h[6..]), Value(h[2..6]);
      if h[0] != VERSION || n > CHUNK || id == 0 then Failed(InvalidFrame, rest)
      else
        var body := ReadFullOf(rest, n);
        if body.error.Some? then Failed(body.error.value, rest[|body.data|..])
        else Got(Frame(h[1], id, body.data), rest[n..])
  }

  /** Repeated ReadFrame until it fails. */
  function DecodeAll(stream: seq<Byte>): (r: (seq<Frame>, ReadError))
    decreases |stream|
  {
    match Decode(stream)
    case Failed(error, _) => ([], error)
    case Got(f, rest) =>
      DecodeConsumes(stream);
      var (fs, error) := DecodeAll(rest);
      ([f] + fs, error)
  }

  function EncodeAll(fs: seq<Frame>): seq<Byte> {
    if fs == [] then [] else Encode(fs[0]) + EncodeAll(fs[1..])
  }

  // ---- properties of one frame ---------------------------------------------------------------

  lemma HeaderFields(f: Frame)
    requires Valid(f)
    ensures Header(f)[0] == VERSION && Header(f)[1] == f.kind
    ensures Value(Header(f)[2..6]) == f.id && Value(Header(f)[6..]) == |f.data|
  {
    Widths();
    assert Header(f)[2..6] == BigEndian(f.id, 4);
    assert Header(f)[6..] == BigEndian(|f.data|, 4);
    ValueOfBigEndian(f.id, 4);
    ValueOfBigEndian(|f.data|, 4);
  }

  /** What was written is read back, whatever follows it on the stream. */
  lemma RoundTrip(f: Frame, rest: seq<Byte>)
    requires Valid(f)
    ensures Decode(Encode(f) + rest) == Got(f, rest)
  {
    HeaderFields(f);
    var stream := Encode(f) + rest;
    assert stream[..HEADER] == Header(f);
    assert stream[HEADER..] == f.data + rest;
    assert (f.data + rest)[..|f.data|] == f.data;
    assert (f.data + rest)[|f.data|..] == rest;
  }

  /** The decoder accepts nothing but encodings of valid frames, and consumes exactly one of them. */
  lemma DecodeConsumes(stream: seq<Byte>)
    ensures var d := Decode(stream); d.Got? ==>
      && Valid(d.frame) && stream == Encode(d.frame) + d.rest && |d.rest| < |stream|
  {
    var d := Decode(stream);
    if d.Got? {
      Widths();
      var h := stream[..HEADER];
      BigEndianOfValue(h[2..6]);
      BigEndianOfValue(h[6..]);
      assert h == [h[0], h[1]] + h[2..6] + h[6..];
      assert Header(d.frame) == h;
      assert stream == h + stream[HEADER..];
    }
  }

  /**
   * A frame cut short is an error. It is reported as a clean end of the stream in two cases only:
   * nothing was there at all, or the connection ended exactly between a header and its payload.
   */
  lemma CutShort(f: Frame, k: nat)
    requires Valid(f) && k < |Encode(f)|
    ensures Decode(Encode(f)[..k]).Failed?
    ensures Decode(Encode(f)[..k]).error == if k == 0 || k == HEADER then EndOfStream else UnexpectedEnd
  {
    HeaderFields(f);
    var s := Encode(f)[..k];
    if k >= HEADER {
      assert s[..HEADER] == Header(f);
      assert s[HEADER..] == f.data[..k - HEADER];
    }
  }

  // ---- properties of streams -----------------------------------------------------------------

  lemma {:induction false} StreamRoundTrip(fs: seq<Frame>)
    requires forall f | f in fs :: Valid(f)
    ensures DecodeAll(EncodeAll(fs)) == (fs, EndOfStream)
  {
    if fs == [] {
      assert Decode([]) == Failed(EndOfStream, []);
    } else {
      RoundTrip(fs[0], EncodeAll(fs[1..]));
      StreamRoundTrip(fs[1..]);
      assert [fs[0]] + fs[1..] == fs;
    }
  }

  /** However the connection is cut, the reader sees an unaltered prefix of the frames written. */
  lemma {:induction false} CutStream(fs: seq<Frame>, k: nat)
    requires forall f | f in fs :: Valid(f)
    requires k <= |EncodeAll(fs)|
    ensures DecodeAll(EncodeAll(fs)[..k]).0 <= fs
  {
    if fs != [] {
      var one, more := Encode(fs[0]), EncodeAll(fs[1..]);
      if k < |one| {
        assert EncodeAll(fs)[..k] == one[..k];
        CutShort(fs[0], k);
      } else {
        assert EncodeAll(fs)[..k] == one + more[..k - |one|];
        RoundTrip(fs[0], more[..k - |one|]);
        CutStream(fs[1..], k - |one|);
      }
    }
  }

  /** Two lists of frames never share an encoding. */
  lemma EncodingInjective(fs: seq<Frame>, gs: seq<Frame>)
    requires forall f | f in fs :: Valid(f)
    requires forall g | g in gs :: Valid(g)
    requires EncodeAll(fs) == EncodeAll(gs)
    ensures fs == gs
  {
    StreamRoundTrip(fs);
    StreamRoundTrip(gs);
  }

  /** Whatever arrives, a frame that is handed on has a usable identifier and a bounded payload. */
  lemma {:induction false} OnlyValidFrames(stream: seq<Byte>)
    ensures forall f | f in DecodeAll(stream).0 :: Valid(f)
    decreases |stream|
  {
    DecodeConsumes(stream);
    match Decode(stream)
    case Failed(_, _) =>
    case Got(f, rest) => OnlyValidFrames(rest);
  }

  // ---- the code, over a connection that moves any number of octets at a time -----------------------

  /** The reading side of a connection: `rest` is what will still arrive before it ends. */
  class Source {
    var rest: seq<Byte>

    constructor (rest: seq<Byte>)
      ensures this.rest == rest
    {
      this.rest := rest;
    }

    /** At least one octet while there are any, at most `limit`. */
    method Read(limit: nat) returns (data: seq<Byte>, eof: bool)
      requires limit > 0
      modifies this
      ensures data + rest == old(rest) && |data| <= limit
      ensures eof == (old(rest) == []) && (!eof ==> data != [])
    {
      if rest == [] {
        return [], true;
      }
      var n :| 1 <= n <= limit && n <= |rest|;
      data, rest, eof := rest[..n], rest[n..], false;
    }

    method ReadFull(want: nat) returns (data: seq<Byte>, error: Option<ReadError>)
      modifies this
      ensures Full(data, error) == ReadFullOf(old(rest), want)
      ensures data + rest == old(rest)
    {
      data := [];
      while |data| < want
        invariant data + rest == old(rest) && |data| <= want
        decreases want - |data|
      {
        var part, eof := Read(want - |data|);
        if eof {
          assert data == old(rest);
          return data, Some(if data == [] then EndOfStream else UnexpectedEnd);
        }
        data := data + part;
      }
      assert data == (data + rest)[..want];
      error := None;
    }
  }

  method ReadFrame(r: Source) returns (d: Decoded)
    modifies r
    ensures d == Decode(old(r.rest)) && r.rest == d.rest
  {
    ghost var stream := r.rest;
    var header, error := r.ReadFull(HEADER);
    assert r.rest == stream[|header|..] by { assert stream == header + r.rest; }
    if error.Some? {
      return Failed(error.value, r.rest);
    }
    var n := Value(header[6..]);
    var id := Value(header[2..6]);
    if header[0] != VERSION || n > CHUNK || id == 0 {
      return Failed(InvalidFrame, r.rest);
    }
    ghost var rest := r.rest;
    var data, failure := r.ReadFull(n);
    assert r.rest == rest[|data|..] by { assert rest == data + r.rest; }
    if failure.Some? {
      return Failed(failure.value, r.rest);
    }
    return Got(Frame(header[1], id, data), r.rest);
  }

  /** The writing side: each call takes some of the data, possibly none, and may fail. */
  class Sink {
    var written: seq<Byte>

    constructor ()
      ensures written == []
    {
      written := [];
    }

    method Write(data: seq<Byte>) returns (n: nat, ok: bool)
      modifies this
      ensures n <= |data| && written == old(written) + data[..n]
    {
      n :| 0 <= n <= |data|;
      ok :| ok || !ok;
      written := written + data[..n];
    }
  }

  datatype WriteOutcome = Written | Rejected | Broken

  /** The inner loop of WriteFrame: hands over one buffer, shrinking it as octets are taken. */
  method WriteAll(w: Sink, buffer: seq<Byte>) returns (ok: bool, sent: nat)
    modifies w
    ensures sent <= |buffer| && (ok ==> sent == |buffer|)
    ensures w.written == old(w.written) + buffer[..sent]
  {
    var data := buffer;
    sent := 0;
    while |data| > 0
      invariant sent <= |buffer| && data == buffer[sent..]
      invariant w.written == old(w.written) + buffer[..sent]
      decreases |data|
    {
      var n, taken := w.Write(data);
      assert buffer[..sent + n] == buffer[..sent] + data[..n];
      sent := sent + n;
      if !taken || n == 0 {
        return false, sent;
      }
      data := data[n..];
    }
    ok := true;
  }

  method WriteFrame(w: Sink, f: Frame) returns (outcome: WriteOutcome)
    modifies w
    ensures outcome == Rejected <==> !(|f.data| <= CHUNK && f.id != 0)
    ensures outcome == Rejected ==> w.written == old(w.written)
    ensures outcome == Written ==> w.written == old(w.written) + Encode(f)
    ensures outcome == Broken ==>
      exists k :: 0 <= k <= |Encode(f)| && w.written == old(w.written) + Encode(f)[..k]
  {
    if |f.data| > CHUNK || f.id == 0 {
      return Rejected;
    }
    var ok, sent := WriteAll(w, Header(f));
    if !ok {
      assert Encode(f)[..sent] == Header(f)[..sent];
      return Broken;
    }
    assert w.written == old(w.written) + Header(f);
    ok, sent := WriteAll(w, f.data);
    assert Encode(f)[..HEADER + sent] == Header(f) + f.data[..sent];
    assert w.written == old(w.written) + Encode(f)[..HEADER + sent];
    if !ok {
      return Broken;
    }
    assert Encode(f)[..HEADER + sent] == Encode(f);
    return Written;
  }
}
