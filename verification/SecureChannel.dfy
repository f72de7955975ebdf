/**
 * The encrypted WebSocket channel (internal/websocketsecure/session.go): sequence-numbered AEAD
 * envelopes between two ends, over a network that may drop, repeat, reorder and alter what it carries.
 * The AEAD is ideal: a ciphertext opens only under the key, nonce and header it was sealed with.
 */
module SecureChannel {
  import opened Bytes
  import opened Options

  const TAG: seq<Byte> := [0x52, 0x50, 0x57, 0x45]
  const VERSION: Byte := 1
  const TEXT: Byte := 1
  const BINARY: Byte := 2
  const HEADER: nat := 14
  const NONCE: nat := 12
  const MAX_SEQUENCE: nat := UINT64_RANGE - 1

  type Key = seq<Byte>

  /** A ciphertext: the outcome of Seal, or octets that nobody sealed. */
  datatype Sealed =
    | Sealed(key: Key, nonce: seq<Byte>, plain: seq<Byte>, header: seq<Byte>)
    | Forged(octets: seq<Byte>)

  /** A WebSocket message on the network, its first 14 octets apart. */
  datatype Packet = Packet(kind: Byte, header: seq<Byte>, body: Sealed)

  datatype Message = Message(kind: Byte, data: seq<Byte>)

  // ---- nonces --------------------------------------------------------------------------------

  /** Bitwise exclusive or of the low `bits` bits. */
  function Xor(a: nat, b: nat, bits: nat): nat {
    if bits == 0 then 0 else (if a % 2 != b % 2 then 1 else 0) + 2 * Xor(a / 2, b / 2, bits - 1)
  }

  function Pow2(bits: nat): nat {
    if bits == 0 then 1 else 2 * Pow2(bits - 1)
  }

  lemma {:induction false} XorInjective(a: nat, b: nat, c: nat, bits: nat)
    requires b < Pow2(bits) && c < Pow2(bits) && Xor(a, b, bits) == Xor(a, c, bits)
    ensures b == c
  {
    if bits > 0 {
      XorInjective(a / 2, b / 2, c / 2, bits - 1);
    }
  }

  lemma {:induction false} XorBound(a: nat, b: nat, bits: nat)
    ensures Xor(a, b, bits) < Pow2(bits)
  {
    if bits > 0 {
      XorBound(a / 2, b / 2, bits - 1);
    }
  }

  lemma Pow2Of64()
    ensures Pow2(64) == UINT64_RANGE
  {
    Pow2Doubles(32, 32);
    Pow2Doubles(16, 16);
    Pow2Doubles(8, 8);
    Pow2Doubles(4, 4);
  }

  lemma TwiceTimes(x: nat, y: nat)
    ensures 2 * x * y == 2 * (x * y)
  {
  }

  lemma {:induction false} Pow2Doubles(a: nat, b: nat)
    ensures Pow2(a + b) == Pow2(a) * Pow2(b)
  {
    if a > 0 {
      Pow2Doubles(a - 1, b);
      assert a + b - 1 == a - 1 + b;
      TwiceTimes(Pow2(a - 1), Pow2(b));
    }
  }

  /** The base nonce with the sequence number mixed into its last eight octets. */
  function Nonce(base: seq<Byte>, sequence: nat): (n: seq<Byte>)
    requires |base| == NONCE
    ensures |n| == NONCE
  {
    base[..4] + BigEndian(Xor(Value(base[4..]), sequence, 64), 8)
  }

  lemma NonceInjective(base: seq<Byte>, i: nat, j: nat)
    requires |base| == NONCE && i < UINT64_RANGE && j < UINT64_RANGE && Nonce(base, i) == Nonce(base, j)
    ensures i == j
  {
    var b := Value(base[4..]);
    assert Nonce(base, i)[4..] == BigEndian(Xor(b, i, 64), 8);
    assert Nonce(base, j)[4..] == BigEndian(Xor(b, j, 64), 8);
    Widths();
    Pow2Of64();
    XorBound(b, i, 64);
    XorBound(b, j, 64);
    ValueOfBigEndian(Xor(b, i, 64), 8);
    ValueOfBigEndian(Xor(b, j, 64), 8);
    XorInjective(b, i, j, 64);
  }

  lemma {:induction false} XorUndone(a: nat, b: nat, bits: nat)
    requires b < Pow2(bits)
    ensures Xor(a, Xor(a, b, bits), bits) == b
  {
    if bits > 0 {
      XorUndone(a / 2, b / 2, bits - 1);
    }
  }

  /** A nonce starts as its base does, and its last eight octets differ from the base's by the sequence number. */
  lemma NonceMixes(base: seq<Byte>, sequence: nat)
    requires |base| == NONCE && sequence < UINT64_RANGE
    ensures var n := Nonce(base, sequence);
      n[..4] == base[..4] && Xor(Value(base[4..]), Value(n[4..]), 64) == sequence
  {
    var b := Value(base[4..]);
    assert Nonce(base, sequence)[4..] == BigEndian(Xor(b, sequence, 64), 8);
    Widths();
    Pow2Of64();
    XorBound(b, sequence, 64);
    ValueOfBigEndian(Xor(b, sequence, 64), 8);
    XorUndone(b, sequence, 64);
  }

  // ---- envelopes -----------------------------------------------------------------------------

  function Header(kind: Byte, sequence: nat): (h: seq<Byte>)
    ensures |h| == HEADER
  {
    TAG + [VERSION, kind] + BigEndian(sequence, 8)
  }

  function Envelope(key: Key, base: seq<Byte>, sequence: nat, m: Message): Packet
    requires |base| == NONCE
  {
    var header := Header(m.kind, sequence);
    Packet(BINARY, header, Sealed(key, Nonce(base, sequence), m.data, header))
  }

  datatype OpenError = NotBinary | BadType | Unsupported | BadSequence | NotAuthentic

  datatype Opened = Plain(m: Message) | Rejected(error: OpenError)

  /** Open of the ideal AEAD. */
  function Decrypts(body: Sealed, key: Key, nonce: seq<Byte>, header: seq<Byte>): bool {
    body.Sealed? && body.key == key && body.nonce == nonce && body.header == header
  }

  function Open(key: Key, base: seq<Byte>, expected: nat, p: Packet): Opened
    requires |base| == NONCE
  {
    if p.kind != BINARY then Rejected(NotBinary)
    else if |p.header| < HEADER || (p.header[5] != BINARY && p.header[5] != TEXT) then Rejected(BadType)
    else if p.header[..4] != TAG || p.header[4] != VERSION then Rejected(Unsupported)
    else
      var sequence := Value(p.header[6..HEADER]);
      if sequence != expected || sequence == MAX_SEQUENCE then Rejected(BadSequence)
      else if !Decrypts(p.body, key, Nonce(base, sequence), p.header) then Rejected(NotAuthentic)
      else Plain(Message(p.header[5], p.body.plain))
  }

  lemma HeaderInjective(k1: Byte, s1: nat, k2: Byte, s2: nat)
    requires s1 < UINT64_RANGE && s2 < UINT64_RANGE && Header(k1, s1) == Header(k2, s2)
    ensures k1 == k2 && s1 == s2
  {
    Widths();
    assert Header(k1, s1)[5] == k1 && Header(k2, s2)[5] == k2;
    assert Header(k1, s1)[6..] == BigEndian(s1, 8) && Header(k2, s2)[6..] == BigEndian(s2, 8);
    ValueOfBigEndian(s1, 8);
    ValueOfBigEndian(s2, 8);
  }

  // ---- one direction -------------------------------------------------------------------------

  /**
   * A key with its base nonce, the sender's and the receiver's counters, and history: what was passed to
   * Write (the sealed ones are the first `writeSeq`) and what Read returned.
   */
  datatype Direction = Direction(
    key: Key, base: seq<Byte>, writeSeq: nat, readSeq: nat, attempts: seq<Message>, got: seq<Message>)

  function Fresh(key: Key, base: seq<Byte>): Direction {
    Direction(key, base, 0, 0, [], [])
  }

  function Write(d: Direction, m: Message): Direction {
    if d.writeSeq == MAX_SEQUENCE then d.(attempts := d.attempts + [m])
    else d.(writeSeq := d.writeSeq + 1, attempts := d.attempts + [m])
  }

  function Read(d: Direction, p: Packet): Direction
    requires |d.base| == NONCE
  {
    match Open(d.key, d.base, d.readSeq, p)
    case Plain(m) => d.(readSeq := d.readSeq + 1, got := d.got + [m])
    case Rejected(_) => d
  }

  /** The i-th envelope ever sealed under the key of `d`. */
  function Issued(d: Direction, i: nat): Packet
    requires |d.base| == NONCE && i < |d.attempts|
  {
    Envelope(d.key, d.base, i, d.attempts[i])
  }

  /** Ciphertexts under the key of `d` exist only where its sender made them. */
  ghost predicate Honest(d: Direction, body: Sealed)
    requires |d.base| == NONCE && d.writeSeq <= |d.attempts|
  {
    body.Sealed? && body.key == d.key ==> exists i :: 0 <= i < d.writeSeq && body == Issued(d, i).body
  }

  ghost predicate Inv(d: Direction) {
    && |d.base| == NONCE
    && d.writeSeq == (if |d.attempts| < MAX_SEQUENCE then |d.attempts| else MAX_SEQUENCE)
    && d.readSeq == |d.got| <= d.writeSeq
    && d.got == d.attempts[..d.readSeq]
  }

  /**
   * What is accepted is exactly the next envelope of the sender, unaltered: not an older one again, not
   * a later one early, not one under another header, and nothing else.
   */
  lemma AcceptedIff(d: Direction, p: Packet)
    requires Inv(d) && Honest(d, p.body) && |p.header| <= HEADER
    ensures Open(d.key, d.base, d.readSeq, p).Plain? <==>
      && d.readSeq < d.writeSeq && p == Issued(d, d.readSeq)
      && (d.attempts[d.readSeq].kind == TEXT || d.attempts[d.readSeq].kind == BINARY)
    ensures Open(d.key, d.base, d.readSeq, p).Plain? ==>
      Open(d.key, d.base, d.readSeq, p).m == d.attempts[d.readSeq]
  {
    hide Value, Nonce, BigEndian;
    if d.readSeq < d.writeSeq {
      OpensIssued(d);
    }
    if Open(d.key, d.base, d.readSeq, p).Plain? {
      var i :| 0 <= i < d.writeSeq && p.body == Issued(d, i).body;
      NonceInjective(d.base, i, d.readSeq);
      hide Header;
    }
  }

  /** The envelope that is expected opens, if its kind is one of a message. */
  lemma OpensIssued(d: Direction)
    requires Inv(d) && d.readSeq < d.writeSeq
    ensures var m := d.attempts[d.readSeq];
      Open(d.key, d.base, d.readSeq, Issued(d, d.readSeq)) ==
        if m.kind == TEXT || m.kind == BINARY then Plain(m) else Rejected(BadType)
  {
    Widths();
    ValueOfBigEndian(d.readSeq, 8);
    hide Value, Nonce, BigEndian;
    var m := d.attempts[d.readSeq];
    var h := Header(m.kind, d.readSeq);
    assert h[..4] == TAG && h[4] == VERSION && h[5] == m.kind && h[6..HEADER] == BigEndian(d.readSeq, 8);
  }

  lemma ReadKeeps(d: Direction, p: Packet)
    requires Inv(d) && Honest(d, p.body) && |p.header| <= HEADER
    ensures Inv(Read(d, p))
  {
    AcceptedIff(d, p);
  }

  // ---- a session under an active network -----------------------------------------------------

  /** Keys and nonces of one end, as newConn hands out the derived material. */
  datatype Keys = Keys(readKey: Key, writeKey: Key, readNonce: seq<Byte>, writeNonce: seq<Byte>)

  function NewConn(material: seq<Byte>, client: bool): Keys
    requires |material| == 88
  {
    var c2s, s2c := material[..32], material[32..64];
    var cNonce, sNonce := material[64..76], material[76..88];
    if client then Keys(s2c, c2s, sNonce, cNonce) else Keys(c2s, s2c, cNonce, sNonce)
  }

  /** `up` is what the client writes and the server reads, `down` the other way; `seals` is history. */
  datatype Session = Session(up: Direction, down: Direction, seals: seq<(Key, seq<Byte>)>)

  function Start(material: seq<Byte>): Session
    requires |material| == 88
  {
    var client, server := NewConn(material, true), NewConn(material, false);
    Session(Fresh(client.writeKey, client.writeNonce), Fresh(server.writeKey, server.writeNonce), [])
  }

  datatype Event =
    | ClientWrites(m: Message) | ServerWrites(m: Message)
    | ToServer(p: Packet) | ToClient(p: Packet)

  /** What the network can carry: octets of its own making, and ciphertexts it has seen on either way. */
  ghost predicate Known(s: Session, p: Packet)
    requires WellFormed(s)
  {
    && |p.header| <= HEADER
    && match p.body
       case Forged(_) => true
       case Sealed(_, _, _, _) =>
         || (exists i :: 0 <= i < s.up.writeSeq && p.body == Issued(s.up, i).body)
         || (exists i :: 0 <= i < s.down.writeSeq && p.body == Issued(s.down, i).body)
  }

  ghost predicate WellFormed(s: Session) {
    && |s.up.base| == NONCE && |s.down.base| == NONCE
    && s.up.writeSeq <= |s.up.attempts| && s.down.writeSeq <= |s.down.attempts|
  }

  /** The nonces a write uses up: one, unless the sequence is exhausted. */
  function Used(d: Direction): seq<(Key, seq<Byte>)>
    requires |d.base| == NONCE
  {
    if d.writeSeq == MAX_SEQUENCE then [] else [(d.key, Nonce(d.base, d.writeSeq))]
  }

  /** A delivery that the network cannot make does not happen. */
  ghost function Step(s: Session, ev: Event): Session
    requires WellFormed(s)
  {
    match ev
    case ClientWrites(m) => s.(up := Write(s.up, m), seals := s.seals + Used(s.up))
    case ServerWrites(m) => s.(down := Write(s.down, m), seals := s.seals + Used(s.down))
    case ToServer(p) => if Known(s, p) then s.(up := Read(s.up, p)) else s
    case ToClient(p) => if Known(s, p) then s.(down := Read(s.down, p)) else s
  }

  ghost predicate SealOf(d: Direction, seal: (Key, seq<Byte>), i: nat)
    requires |d.base| == NONCE
  {
    i < d.writeSeq && seal == (d.key, Nonce(d.base, i))
  }

  ghost predicate MadeBy(d: Direction, seal: (Key, seq<Byte>))
    requires |d.base| == NONCE
  {
    exists i :: SealOf(d, seal, i)
  }

  /** Every seal used a key and nonce that one of the directions had reached, and no two are the same. */
  ghost predicate SealsInv(seals: seq<(Key, seq<Byte>)>, d: Direction, e: Direction)
    requires |d.base| == NONCE && |e.base| == NONCE
  {
    && (forall k | 0 <= k < |seals| :: MadeBy(d, seals[k]) || MadeBy(e, seals[k]))
    && (forall k, l | 0 <= k < l < |seals| :: seals[k] != seals[l])
  }

  ghost predicate SessionInv(s: Session) {
    Inv(s.up) && Inv(s.down) && s.up.key != s.down.key && SealsInv(s.seals, s.up, s.down)
  }

  lemma MadeByGrows(d: Direction, m: Message, seal: (Key, seq<Byte>))
    requires |d.base| == NONCE && MadeBy(d, seal)
    ensures MadeBy(Write(d, m), seal)
  {
    var i :| SealOf(d, seal, i);
    assert SealOf(Write(d, m), seal, i);
  }

  lemma NextNonceIsNew(d: Direction, e: Direction, seal: (Key, seq<Byte>))
    requires Inv(d) && Inv(e) && d.key != e.key && (MadeBy(d, seal) || MadeBy(e, seal))
    ensures d.writeSeq < MAX_SEQUENCE ==> seal != (d.key, Nonce(d.base, d.writeSeq))
  {
    if d.writeSeq < MAX_SEQUENCE && seal == (d.key, Nonce(d.base, d.writeSeq)) {
      var i :| SealOf(d, seal, i);
      NonceInjective(d.base, i, d.writeSeq);
    }
  }

  lemma WriteKeeps(seals: seq<(Key, seq<Byte>)>, d: Direction, e: Direction, m: Message)
    requires Inv(d) && Inv(e) && d.key != e.key && SealsInv(seals, d, e)
    ensures Inv(Write(d, m)) && SealsInv(seals + Used(d), Write(d, m), e)
  {
    var more, d' := seals + Used(d), Write(d, m);
    assert d'.attempts[..d.readSeq] == d.attempts[..d.readSeq];
    hide Nonce;
    forall k | 0 <= k < |more|
      ensures MadeBy(d', more[k]) || MadeBy(e, more[k])
    {
      if k < |seals| {
        if MadeBy(d, seals[k]) { MadeByGrows(d, m, seals[k]); }
      } else {
        assert SealOf(d', more[k], d.writeSeq);
      }
    }
    forall k, l | 0 <= k < l < |more|
      ensures more[k] != more[l]
    {
      NextNonceIsNew(d, e, seals[k]);
    }
  }

  lemma ReadKeepsSeals(seals: seq<(Key, seq<Byte>)>, d: Direction, e: Direction, p: Packet)
    requires |d.base| == NONCE && |e.base| == NONCE && SealsInv(seals, d, e)
    ensures SealsInv(seals, Read(d, p), e) && SealsInv(seals, e, Read(d, p)) && Read(d, p).key == d.key
  {
    hide Nonce, Open;
    assert forall seal, i :: SealOf(d, seal, i) <==> SealOf(Read(d, p), seal, i);
    assert forall seal :: MadeBy(d, seal) <==> MadeBy(Read(d, p), seal);
  }

  lemma StepKeeps(s: Session, ev: Event)
    requires SessionInv(s)
    ensures SessionInv(Step(s, ev))
  {
    hide Nonce, MadeBy, Read, Issued;
    match ev
    case ClientWrites(m) => WriteKeeps(s.seals, s.up, s.down, m);
    case ServerWrites(m) => WriteKeeps(s.seals, s.down, s.up, m);
    case ToServer(p) => if Known(s, p) { KnownIsHonest(s, p); ReadKeeps(s.up, p); ReadKeepsSeals(s.seals, s.up, s.down, p); }
    case ToClient(p) => if Known(s, p) { KnownIsHonest(s, p); ReadKeeps(s.down, p); ReadKeepsSeals(s.seals, s.down, s.up, p); }
  }

  lemma KnownIsHonest(s: Session, p: Packet)
    requires WellFormed(s) && s.up.key != s.down.key && Known(s, p)
    ensures Honest(s.up, p.body) && Honest(s.down, p.body)
  {
  }

  ghost function Run(material: seq<Byte>, events: seq<Event>): (s: Session)
    requires |material| == 88
    ensures WellFormed(s)
  {
    if events == [] then Start(material)
    else Step(Run(material, events[..|events| - 1]), events[|events| - 1])
  }

  /** The derived keys differ; were they equal, the two directions could share a nonce. */
  lemma {:induction false} RunInv(material: seq<Byte>, events: seq<Event>)
    requires |material| == 88 && material[..32] != material[32..64]
    ensures SessionInv(Run(material, events))
  {
    if events != [] {
      RunInv(material, events[..|events| - 1]);
      StepKeeps(Run(material, events[..|events| - 1]), events[|events| - 1]);
    }
  }

  /** Both ends agree on who uses which key. */
  lemma EndsMirror(material: seq<Byte>)
    requires |material| == 88
    ensures var c, s := NewConn(material, true), NewConn(material, false);
      && c.writeKey == s.readKey && c.readKey == s.writeKey
      && c.writeNonce == s.readNonce && c.readNonce == s.writeNonce
      && |c.writeNonce| == NONCE && |s.writeNonce| == NONCE
      && material == c.writeKey + s.writeKey + c.writeNonce + s.writeNonce
      && (material[..32] != material[32..64] ==> c.writeKey != s.writeKey)
  {
  }

  /**
   * Whatever the network does, what an end has read is a prefix of what the other end passed to Write,
   * kinds and octets; and no key was ever used twice with the same nonce.
   */
  lemma PrefixAndNonces(material: seq<Byte>, events: seq<Event>)
    requires |material| == 88 && material[..32] != material[32..64]
    ensures var s := Run(material, events);
      && s.up.got <= s.up.attempts && s.down.got <= s.down.attempts
      && (forall k, l | 0 <= k < l < |s.seals| :: s.seals[k] != s.seals[l])
      && s.up.writeSeq <= MAX_SEQUENCE && s.down.writeSeq <= MAX_SEQUENCE
  {
    RunInv(material, events);
  }

  /** The next envelope of a direction that the reader has not read. */
  lemma NextIsAccepted(d: Direction)
    requires Inv(d) && |d.got| < d.writeSeq && d.attempts[|d.got|].kind in {TEXT, BINARY}
    requires Honest(d, Issued(d, |d.got|).body)
    ensures Read(d, Issued(d, |d.got|)).got == d.attempts[..|d.got| + 1]
  {
    var p := Issued(d, |d.got|);
    AcceptedIff(d, p);
    ReadKeeps(d, p);
  }

  /** A network that delivers faithfully loses nothing, either way: the next envelope is always accepted. */
  lemma FaithfulDelivery(material: seq<Byte>, events: seq<Event>)
    requires |material| == 88 && material[..32] != material[32..64]
    ensures var s := Run(material, events);
      |s.up.got| < s.up.writeSeq && s.up.attempts[|s.up.got|].kind in {TEXT, BINARY} ==>
        var p := Issued(s.up, |s.up.got|);
        Known(s, p) && Step(s, ToServer(p)).up.got == s.up.attempts[..|s.up.got| + 1]
    ensures var s := Run(material, events);
      |s.down.got| < s.down.writeSeq && s.down.attempts[|s.down.got|].kind in {TEXT, BINARY} ==>
        var p := Issued(s.down, |s.down.got|);
        Known(s, p) && Step(s, ToClient(p)).down.got == s.down.attempts[..|s.down.got| + 1]
  {
    hide Run, SessionInv, Step, Known, Issued;
    RunInv(material, events);
    var s := Run(material, events);
    if |s.up.got| < s.up.writeSeq && s.up.attempts[|s.up.got|].kind in {TEXT, BINARY} {
      DeliveredUp(s);
    }
    if |s.down.got| < s.down.writeSeq && s.down.attempts[|s.down.got|].kind in {TEXT, BINARY} {
      DeliveredDown(s);
    }
  }

  lemma DeliveredUp(s: Session)
    requires SessionInv(s) && |s.up.got| < s.up.writeSeq && s.up.attempts[|s.up.got|].kind in {TEXT, BINARY}
    ensures var p := Issued(s.up, |s.up.got|);
      Known(s, p) && Step(s, ToServer(p)).up.got == s.up.attempts[..|s.up.got| + 1]
  {
    hide SealsInv, Read;
    var p := Issued(s.up, |s.up.got|);
    assert Known(s, p);
    KnownIsHonest(s, p);
    NextIsAccepted(s.up);
  }

  lemma DeliveredDown(s: Session)
    requires SessionInv(s) && |s.down.got| < s.down.writeSeq && s.down.attempts[|s.down.got|].kind in {TEXT, BINARY}
    ensures var p := Issued(s.down, |s.down.got|);
      Known(s, p) && Step(s, ToClient(p)).down.got == s.down.attempts[..|s.down.got| + 1]
  {
    hide SealsInv, Read;
    var p := Issued(s.down, |s.down.got|);
    assert Known(s, p);
    KnownIsHonest(s, p);
    NextIsAccepted(s.down);
  }

  // ---- the handshake -------------------------------------------------------------------------

  const MAGIC: seq<Byte> := [0x52, 0x50, 0x53, 0x31]
  const HELLO: nat := 103
  const PUBLIC: nat := 65
  const RANDOM: nat := 32
  const CLIENT: Byte := 1
  const SERVER: Byte := 2

  function Hello(role: Byte, public: seq<Byte>, random: seq<Byte>): seq<Byte> {
    MAGIC + [VERSION, role] + public + random
  }

  predicate IsClientHello(data: seq<Byte>) {
    |data| >= 6 && data[..4] == MAGIC && data[4] == VERSION && data[5] == CLIENT
  }

  /** The public key and the random octets; `onCurve` tells the encodings of points. */
  function ParseClientHello(data: seq<Byte>, onCurve: seq<Byte> -> bool): Option<(seq<Byte>, seq<Byte>)> {
    if |data| != HELLO || !onCurve(data[6..71]) then None else Some((data[6..71], data[71..]))
  }

  function ParseServerHello(data: seq<Byte>, onCurve: seq<Byte> -> bool): Option<(seq<Byte>, seq<Byte>)> {
    if |data| != HELLO || data[..4] != MAGIC || data[4] != VERSION || data[5] != SERVER then None
    else if !onCurve(data[6..71]) then None
    else Some((data[6..71], data[71..]))
  }

  /** Each hello is read back by the other end as what it was made of, and as nothing else by its own. */
  lemma HelloRoundTrip(role: Byte, public: seq<Byte>, random: seq<Byte>, onCurve: seq<Byte> -> bool)
    requires |public| == PUBLIC && |random| == RANDOM && onCurve(public)
    ensures var data := Hello(role, public, random);
      && |data| == HELLO
      && (IsClientHello(data) <==> role == CLIENT)
      && ParseClientHello(data, onCurve) == Some((public, random))
      && ParseServerHello(data, onCurve) == if role == SERVER then Some((public, random)) else None
  {
    var data := Hello(role, public, random);
    assert data[..4] == MAGIC && data[4] == VERSION && data[5] == role;
    assert data[6..71] == public && data[71..] == random;
  }

  /** What is accepted as a server hello is the encoding of one. */
  lemma ServerHelloIsOne(data: seq<Byte>, onCurve: seq<Byte> -> bool)
    requires ParseServerHello(data, onCurve).Some?
    ensures var (public, random) := ParseServerHello(data, onCurve).value;
      data == Hello(SERVER, public, random) && |public| == PUBLIC && |random| == RANDOM && onCurve(public)
  {
    assert data == data[..4] + [data[4], data[5]] + data[6..71] + data[71..];
  }

  datatype Mode = Disabled | Optional | Required

  datatype Handshake =
    | Clear(pending: seq<Message>)   // plain connection; `pending` is a frame still to be read
    | Encrypted(keys: Keys)
    | NegotiationRequired
    | BadHandshake

  /** The primitives: points, the shared secret of a private key and a point, and derivation of 88 octets. */
  datatype Primitives = Primitives(
    onCurve: seq<Byte> -> bool, shared: (seq<Byte>, seq<Byte>) -> seq<Byte>,
    derive: (seq<Byte>, seq<Byte>, seq<Byte>) -> seq<Byte>)

  ghost predicate Sound(p: Primitives) {
    forall s, c, r :: |p.derive(s, c, r)| == 88
  }

  /** ServerHandshake, with the server's fresh private key and random octets. */
  ghost function Negotiate(p: Primitives, mode: Mode, first: Message, private: seq<Byte>, random: seq<Byte>): Handshake
    requires Sound(p)
  {
    if mode == Disabled then Clear([])
    else if !IsClientHello(first.data) then if mode == Required then NegotiationRequired else Clear([first])
    else if first.kind != BINARY then BadHandshake
    else
      match ParseClientHello(first.data, p.onCurve)
      case None => BadHandshake
      case Some((clientPublic, clientRandom)) =>
        Encrypted(NewConn(p.derive(p.shared(private, clientPublic), clientRandom, random), false))
  }

  /** ClientSession, from the answer of the server. */
  ghost function Join(p: Primitives, private: seq<Byte>, clientRandom: seq<Byte>, answer: seq<Byte>): Option<Keys>
    requires Sound(p)
  {
    match ParseServerHello(answer, p.onCurve)
    case None => None
    case Some((serverPublic, serverRandom)) =>
      Some(NewConn(p.derive(p.shared(private, serverPublic), clientRandom, serverRandom), true))
  }

  /**
   * A handshake that is not disturbed succeeds in both modes that try it, and leaves the two ends with the
   * same keys and nonces, each one's for writing being the other's for reading.
   */
  lemma HandshakeAgrees(
      p: Primitives, mode: Mode, clientPrivate: seq<Byte>, clientPublic: seq<Byte>, clientRandom: seq<Byte>,
      serverPrivate: seq<Byte>, serverPublic: seq<Byte>, serverRandom: seq<Byte>)
    requires Sound(p) && mode != Disabled
    requires |clientPublic| == PUBLIC == |serverPublic| && |clientRandom| == RANDOM == |serverRandom|
    requires p.onCurve(clientPublic) && p.onCurve(serverPublic)
    requires p.shared(clientPrivate, serverPublic) == p.shared(serverPrivate, clientPublic)
    ensures var server := Negotiate(
        p, mode, Message(BINARY, Hello(CLIENT, clientPublic, clientRandom)), serverPrivate, serverRandom);
      var client := Join(p, clientPrivate, clientRandom, Hello(SERVER, serverPublic, serverRandom));
      && server.Encrypted? && client.Some?
      && client.value.writeKey == server.keys.readKey && client.value.readKey == server.keys.writeKey
      && client.value.writeNonce == server.keys.readNonce && client.value.readNonce == server.keys.writeNonce
  {
    HelloRoundTrip(CLIENT, clientPublic, clientRandom, p.onCurve);
    HelloRoundTrip(SERVER, serverPublic, serverRandom, p.onCurve);
    hide Hello;
  }

  /**
   * What becomes of a connection, told from the octets of its first frame: no frame is swallowed by a
   * handshake that falls back, a required one never falls back, and encryption starts exactly for a binary
   * frame of 103 octets with the magic, version and role of a client hello and a point of the curve.
   */
  lemma FallbackKeepsFrames(
      p: Primitives, mode: Mode, first: Message, private: seq<Byte>, random: seq<Byte>, later: seq<Message>)
    requires Sound(p)
    ensures var unread := if mode == Disabled then [first] + later else later;
      var h := Negotiate(p, mode, first, private, random);
      && (h.Clear? ==> mode != Required && h.pending + unread == [first] + later)
      && (h.Encrypted? <==>
            && mode != Disabled && first.kind == BINARY && |first.data| == HELLO
            && first.data[..6] == MAGIC + [VERSION, CLIENT] && p.onCurve(first.data[6..71]))
      && (h.NegotiationRequired? <==>
            mode == Required && !(|first.data| >= 6 && first.data[..6] == MAGIC + [VERSION, CLIENT]))
      && (h.Clear? <==>
            mode == Disabled || (mode == Optional && !(|first.data| >= 6 && first.data[..6] == MAGIC + [VERSION, CLIENT])))
  {
    var data := first.data;
    if |data| >= 6 {
      assert data[..6] == data[..4] + [data[4], data[5]];
      assert (MAGIC + [VERSION, CLIENT])[..4] == MAGIC;
    }
  }

  // ---- the connection object -----------------------------------------------------------------

  /** One end of the channel, over a raw connection whose incoming and outgoing messages it can see. */
  class Conn {
    const keys: Keys
    const plain: bool
    var pending: seq<Message>
    var readSeq: nat
    var writeSeq: nat
    var outgoing: seq<Packet>

    ghost predicate Valid()
      reads this
    {
      |keys.readNonce| == NONCE && |keys.writeNonce| == NONCE && |pending| <= 1 && writeSeq <= MAX_SEQUENCE
    }

    constructor (keys: Keys)
      requires |keys.readNonce| == NONCE && |keys.writeNonce| == NONCE
      ensures Valid() && this.keys == keys && !plain && pending == [] && outgoing == []
      ensures readSeq == 0 && writeSeq == 0
    {
      this.keys, plain := keys, false;
      pending, outgoing := [], [];
      readSeq, writeSeq := 0, 0;
    }

    constructor Clear(pending: seq<Message>)
      requires |pending| <= 1
      ensures Valid() && plain && this.pending == pending && outgoing == []
    {
      keys, plain := Keys([], [], seq(NONCE, _ => 0), seq(NONCE, _ => 0)), true;
      this.pending, outgoing := pending, [];
      readSeq, writeSeq := 0, 0;
    }

    method Write(m: Message) returns (ok: bool)
      requires Valid() && !plain
      modifies this
      ensures Valid() && readSeq == old(readSeq) && pending == old(pending)
      ensures ok <==> old(writeSeq) != MAX_SEQUENCE
      ensures !ok ==> writeSeq == old(writeSeq) && outgoing == old(outgoing)
      ensures ok ==>
        && writeSeq == old(writeSeq) + 1
        && outgoing == old(outgoing) + [Envelope(keys.writeKey, keys.writeNonce, old(writeSeq), m)]
    {
      if writeSeq == MAX_SEQUENCE {
        return false;
      }
      var sequence := writeSeq;
      var header := TAG + [VERSION, m.kind] + BigEndian(sequence, 8);
      var sealed := Sealed(keys.writeKey, Nonce(keys.writeNonce, sequence), m.data, header);
      writeSeq := writeSeq + 1;
      outgoing := outgoing + [Packet(BINARY, header, sealed)];
      return true;
    }

    method Read(p: Packet) returns (r: Opened)
      requires Valid() && !plain
      modifies this
      ensures Valid() && writeSeq == old(writeSeq) && outgoing == old(outgoing) && pending == old(pending)
      ensures r == Open(keys.readKey, keys.readNonce, old(readSeq), p)
      ensures readSeq == if r.Plain? then old(readSeq) + 1 else old(readSeq)
    {
      if p.kind != BINARY {
        return Rejected(NotBinary);
      }
      if |p.header| < HEADER || (p.header[5] != BINARY && p.header[5] != TEXT) {
        return Rejected(BadType);
      }
      if p.header[..4] != TAG || p.header[4] != VERSION {
        return Rejected(Unsupported);
      }
      var sequence := Value(p.header[6..HEADER]);
      if sequence != readSeq || sequence == MAX_SEQUENCE {
        return Rejected(BadSequence);
      }
      if !Decrypts(p.body, keys.readKey, Nonce(keys.readNonce, sequence), p.header) {
        return Rejected(NotAuthentic);
      }
      readSeq := readSeq + 1;
      return Plain(Message(p.header[5], p.body.plain));
    }

    /** On a plain connection the retained frame comes first, then what the raw connection carries. */
    method ReadPlain(incoming: seq<Message>) returns (m: Message, rest: seq<Message>)
      requires Valid() && plain && pending + incoming != []
      modifies this
      ensures Valid() && pending == [] && [m] + rest == old(pending) + incoming
    {
      if pending != [] {
        m, rest := pending[0], incoming;
        pending := [];
      } else {
        m, rest := incoming[0], incoming[1..];
      }
    }
  }
}
