/**
 * The reader goroutine of one WebSocket (internal/httpgateway/websocket.go): it takes messages from
 * upstream, cuts them into frames as the peer's credit allows, and parks on a one-slot wake channel when
 * there is none; the accepting goroutine adds credit and then offers the wake token. Each step is one
 * atomic region of the code.
 */
module WebSocketReader {
  import opened Bytes
  import opened FrameCodec
  import opened Options
  import W = WebSocketTunnel

  type Message = W.Message

  datatype Reader =
    | Idle                                       // about to read from upstream
    | Checking(m: Message, offset: nat)          // about to look at the credit
    | Parked(m: Message, offset: nat)            // found none, waits for a token or for the context
    | Sending(m: Message, from: nat, to: nat)    // credit taken, frame not on the wire yet
    | Stopped

  /**
   * `waking` holds between the two steps of a grant: the credit is added, the token not yet offered.
   * History: the credit granted, the messages read from upstream and the frames on the wire.
   */
  datatype Stream = Stream(
    id: nat, credit: int, wake: bool, waking: bool, reader: Reader,
    granted: nat, messages: seq<Message>, wire: seq<Frame>)

  function New(id: nat): Stream {
    Stream(id, 0, false, false, Idle, 0, [], [])
  }

  datatype Action =
    | Grant(n: nat) | OfferWake
    | Receive(m: Message) | Check | TakeWake | Send | Quit

  function Min(a: int, b: int): int {
    if a < b then a else b
  }

  /** What one frame may carry of the rest of a message, credit aside. */
  function Amount(m: Message, offset: nat): int {
    Min(|m.data| - offset, CHUNK - 2)
  }

  predicate Enabled(s: Stream, a: Action) {
    match a
    case Grant(n) => !s.waking && 1 <= n <= W.WINDOW && s.credit + n <= W.WINDOW
    case OfferWake => s.waking
    case Receive(m) => s.reader.Idle? && |m.data| <= W.MAX_MESSAGE
    case Check => s.reader.Checking? && s.reader.offset < |s.reader.m.data|
    case TakeWake => s.reader.Parked? && s.wake
    case Send => s.reader.Sending? && s.reader.from <= s.reader.to <= |s.reader.m.data|
    case Quit => s.reader.Idle? || s.reader.Parked? || s.reader.Sending?
  }

  function FrameOf(id: nat, m: Message, from: nat, to: nat): Frame
    requires from <= to <= |m.data|
  {
    Frame(if m.kind == W.Text then WS_TEXT else WS_BINARY, id, W.Fragment(m, from, to))
  }

  function Next(s: Stream, a: Action): Stream
    requires Enabled(s, a)
  {
    match a
    case Grant(n) => s.(credit := s.credit + n, waking := true, granted := s.granted + n)
    case OfferWake => s.(wake := true, waking := false)
    case Receive(m) =>
      s.(messages := s.messages + [m], reader := if m.data == [] then Sending(m, 0, 0) else Checking(m, 0))
    case Check =>
      var m, offset := s.reader.m, s.reader.offset;
      var taken := Min(s.credit, Amount(m, offset));
      if taken > 0 then s.(credit := s.credit - taken, reader := Sending(m, offset, offset + taken))
      else s.(reader := Parked(m, offset))
    case TakeWake => s.(wake := false, reader := Checking(s.reader.m, s.reader.offset))
    case Send =>
      var m, to := s.reader.m, s.reader.to;
      s.(wire := s.wire + [FrameOf(s.id, m, s.reader.from, to)],
         reader := if to == |m.data| then Idle else Checking(m, to))
    case Quit => s.(reader := Stopped)
  }

  // ---- what the frames on the wire carry -----------------------------------------------------

  /** Octets of messages in the frames; two octets of each frame are kind and flag. */
  function Octets(wire: seq<Frame>): int {
    if wire == [] then 0 else Octets(wire[..|wire| - 1]) + |wire[|wire| - 1].data| - 2
  }

  function Chunks(wire: seq<Frame>): (chunks: seq<seq<Byte>>)
    ensures |chunks| == |wire| && forall i :: 0 <= i < |wire| ==> chunks[i] == wire[i].data
  {
    seq(|wire|, i requires 0 <= i < |wire| => wire[i].data)
  }

  const BLANK: W.Assembly := W.Assembly(W.Text, [])

  /** What the assembler of the accepting side makes of all frames so far. */
  function Received(wire: seq<Frame>): W.Received {
    W.ReceiveAll(BLANK, Chunks(wire))
  }

  /** The message under way, and how much of it is on the wire. */
  function Current(s: Stream): Option<(Message, nat)> {
    match s.reader
    case Checking(m, offset) => Some((m, offset))
    case Parked(m, offset) => Some((m, offset))
    case Sending(m, from, _) => Some((m, from))
    case _ => None
  }

  function Paid(s: Stream): int {
    if s.reader.Sending? then s.reader.to - s.reader.from else 0
  }

  // ---- what every step keeps -----------------------------------------------------------------

  ghost predicate PlaceInv(s: Stream) {
    match s.reader
    case Checking(m, offset) => offset < |m.data| <= W.MAX_MESSAGE
    case Parked(m, offset) => offset < |m.data| <= W.MAX_MESSAGE
    case Sending(m, from, to) =>
      && from <= to <= |m.data| <= W.MAX_MESSAGE && to - from <= CHUNK - 2
      && (from < to || (from == 0 && m.data == []))
    case _ => true
  }

  ghost predicate CreditInv(s: Stream) {
    && 0 <= s.credit <= W.WINDOW
    && s.credit + Paid(s) + Octets(s.wire) <= s.granted
    && (!s.reader.Stopped? ==> s.credit + Paid(s) + Octets(s.wire) == s.granted)
  }

  ghost predicate WakeInv(s: Stream) {
    s.reader.Parked? && s.credit > 0 ==> s.wake || s.waking
  }

  /** The assembler has all finished messages, and of the one under way exactly what is on the wire. */
  ghost predicate BodyInv(s: Stream) {
    var r := Received(s.wire);
    && r.last.Partial?
    && match Current(s)
       case Some((m, offset)) =>
         && offset <= |m.data|
         && s.messages == r.messages + [m] && r.last.next.data == m.data[..offset]
         && (offset > 0 ==> r.last.next.kind == m.kind)
       case None =>
         && r.messages <= s.messages
         && (s.reader.Idle? ==> r.messages == s.messages && r.last.next.data == [])
  }

  ghost predicate FramesInv(s: Stream) {
    forall f :: f in s.wire ==> f.id == s.id && |f.data| <= CHUNK && (f.kind == WS_TEXT || f.kind == WS_BINARY)
  }

  ghost predicate Inv(s: Stream) {
    PlaceInv(s) && CreditInv(s) && WakeInv(s) && BodyInv(s) && FramesInv(s)
  }

  /** One more chunk at the end. */
  lemma {:induction false} ReceiveMore(a: W.Assembly, chunks: seq<seq<Byte>>, chunk: seq<Byte>)
    requires W.ReceiveAll(a, chunks).last.Partial?
    ensures var r := W.ReceiveAll(a, chunks);
      W.ReceiveAll(a, chunks + [chunk]) ==
        match W.Assemble(r.last.next, chunk)
        case Partial(next) => W.Received(r.messages, W.Partial(next))
        case Whole(m) => W.Received(r.messages + [m], W.Partial(W.Assembly(m.kind, [])))
        case TooLong => W.Received(r.messages, W.TooLong)
        case Invalid(e) => W.Received(r.messages, W.Invalid(e))
    decreases |chunks|
  {
    hide W.Assemble;
    var more := chunks + [chunk];
    if chunks == [] {
      assert more[1..] == [];
    } else {
      assert more[0] == chunks[0] && more[1..] == chunks[1..] + [chunk];
      match W.Assemble(a, chunks[0])
      case Partial(next) => ReceiveMore(next, chunks[1..], chunk);
      case Whole(m) => ReceiveMore(W.Assembly(m.kind, []), chunks[1..], chunk);
      case _ =>
    }
  }

  lemma SendBody(s: Stream)
    requires PlaceInv(s) && BodyInv(s) && s.reader.Sending?
    ensures Enabled(s, Send) && BodyInv(Next(s, Send))
  {
    var m, from, to := s.reader.m, s.reader.from, s.reader.to;
    var f := FrameOf(s.id, m, from, to);
    assert Chunks(s.wire + [f]) == Chunks(s.wire) + [f.data];
    ReceiveMore(BLANK, Chunks(s.wire), f.data);
    W.AssembleFragment(Received(s.wire).last.next, m, from, to);
    hide W.ReceiveAll, W.Assemble, W.Fragment;
  }

  lemma SendCredit(s: Stream)
    requires PlaceInv(s) && CreditInv(s) && FramesInv(s) && s.reader.Sending?
    ensures Enabled(s, Send) && PlaceInv(Next(s, Send)) && CreditInv(Next(s, Send)) && FramesInv(Next(s, Send))
  {
    var f := FrameOf(s.id, s.reader.m, s.reader.from, s.reader.to);
    assert (s.wire + [f])[..|s.wire|] == s.wire;
    assert |f.data| == s.reader.to - s.reader.from + 2;
    hide W.Fragment;
  }

  lemma SendKeeps(s: Stream)
    requires Inv(s) && s.reader.Sending?
    ensures Enabled(s, Send) && Inv(Next(s, Send))
  {
    hide BodyInv, CreditInv, FramesInv;
    SendBody(s);
    SendCredit(s);
    hide PlaceInv, FrameOf;
  }

  lemma ReceiveKeeps(s: Stream, m: Message)
    requires Inv(s) && Enabled(s, Receive(m))
    ensures Inv(Next(s, Receive(m)))
  {
    hide Received, Octets;
    assert m.data[..0] == [];
  }

  lemma OtherKeeps(s: Stream, a: Action)
    requires Inv(s) && Enabled(s, a) && !a.Send? && !a.Receive?
    ensures Inv(Next(s, a))
  {
    hide Received, Octets, FramesInv;
    FramesStay(s, a);
  }

  lemma FramesStay(s: Stream, a: Action)
    requires FramesInv(s) && Enabled(s, a) && !a.Send?
    ensures FramesInv(Next(s, a))
  {
  }

  lemma InvStep(s: Stream, a: Action)
    requires Inv(s) && Enabled(s, a)
    ensures Inv(Next(s, a))
  {
    hide Inv, Next;
    match a
    case Send => SendKeeps(s);
    case Receive(m) => ReceiveKeeps(s, m);
    case _ => OtherKeeps(s, a);
  }

  // ---- every run -----------------------------------------------------------------------------

  /** A list of attempted steps; one whose guard is false does nothing. */
  function Apply(s: Stream, steps: seq<Action>): Stream {
    if steps == [] then s
    else
      var before := Apply(s, steps[..|steps| - 1]);
      var a := steps[|steps| - 1];
      if Enabled(before, a) then Next(before, a) else before
  }

  lemma {:induction false} ApplyInv(s: Stream, steps: seq<Action>)
    requires Inv(s)
    ensures Inv(Apply(s, steps))
  {
    if steps != [] {
      hide Inv, Enabled, Next;
      ApplyInv(s, steps[..|steps| - 1]);
      var before := Apply(s, steps[..|steps| - 1]);
      if Enabled(before, steps[|steps| - 1]) {
        InvStep(before, steps[|steps| - 1]);
      }
    }
  }

  lemma RunInv(id: nat, steps: seq<Action>)
    ensures Inv(Apply(New(id), steps))
  {
    ApplyInv(New(id), steps);
  }

  /** In every interleaving the credit is within its window, and the octets sent are within what was granted. */
  lemma FlowControl(id: nat, steps: seq<Action>)
    ensures var s := Apply(New(id), steps); 0 <= s.credit <= W.WINDOW && Octets(s.wire) <= s.granted
  {
    RunInv(id, steps);
    OctetsHeld(Apply(New(id), steps));
  }

  lemma OctetsHeld(s: Stream)
    requires Inv(s)
    ensures 0 <= s.credit <= W.WINDOW && Octets(s.wire) <= s.granted
  {
    hide BodyInv, FramesInv, Octets;
  }

  /**
   * The whole way, in every interleaving: what the accepting assembler makes of the frames on the wire is
   * always a prefix of the messages read from upstream, kinds and octets, empty ones included; and all of
   * them, with nothing half received, whenever the reader is back at its read.
   */
  lemma RoundTrip(id: nat, steps: seq<Action>)
    ensures var s := Apply(New(id), steps); var r := Received(s.wire);
      && r.last.Partial? && r.messages <= s.messages
      && (s.reader.Idle? ==> r.messages == s.messages && r.last.next.data == [])
      && (forall f :: f in s.wire ==> f.id == id && |f.data| <= CHUNK && (f.kind == WS_TEXT || f.kind == WS_BINARY))
  {
    RunInv(id, steps);
    SameId(New(id), steps);
    hide Apply, Received;
  }

  lemma {:induction false} SameId(s: Stream, steps: seq<Action>)
    ensures Apply(s, steps).id == s.id
  {
    if steps != [] {
      SameId(s, steps[..|steps| - 1]);
    }
  }

  // ---- nobody sleeps beside credit -----------------------------------------------------------

  /**
   * No lost wakeup: a reader that is parked while there is credit finds a token, or finds one right after
   * the granting step's next action; with it, it takes credit.
   */
  lemma NoLostWakeup(id: nat, steps: seq<Action>)
    requires Apply(New(id), steps).reader.Parked? && Apply(New(id), steps).credit > 0
    ensures var s := Apply(New(id), steps);
      && (Enabled(s, TakeWake) || Enabled(s, OfferWake))
      && (Enabled(s, OfferWake) ==> Enabled(Next(s, OfferWake), TakeWake))
      && var woken := if Enabled(s, TakeWake) then Next(s, TakeWake) else Next(Next(s, OfferWake), TakeWake);
         Enabled(woken, Check) && Next(woken, Check).reader.Sending?
  {
    hide Apply;
    RunInv(id, steps);
    WakesUp(Apply(New(id), steps));
  }

  lemma WakesUp(s: Stream)
    requires Inv(s) && s.reader.Parked? && s.credit > 0
    ensures && (Enabled(s, TakeWake) || Enabled(s, OfferWake))
      && (Enabled(s, OfferWake) ==> Enabled(Next(s, OfferWake), TakeWake))
      && var woken := if Enabled(s, TakeWake) then Next(s, TakeWake) else Next(Next(s, OfferWake), TakeWake);
         Enabled(woken, Check) && Next(woken, Check).reader.Sending?
  {
    hide BodyInv, FramesInv, CreditInv;
  }

  predicate Busy(s: Stream) {
    s.reader.Checking? || s.reader.Parked? || s.reader.Sending?
  }

  /** What goes on by itself: the reader's own step, or the token that a grant has still to offer. */
  function Own(s: Stream): Option<Action> {
    match s.reader
    case Checking(_, _) => Some(Check)
    case Parked(_, _) => if s.wake then Some(TakeWake) else if s.waking then Some(OfferWake) else None
    case Sending(_, _, _) => Some(Send)
    case _ => None
  }

  /** Octets of the message under way that are not on the wire. */
  function Left(s: Stream): int {
    match s.reader
    case Checking(m, offset) => |m.data| - offset
    case Parked(m, offset) => |m.data| - offset
    case Sending(m, from, _) => |m.data| - from
    case _ => 0
  }

  function Tokens(s: Stream): nat {
    (if s.waking then 2 else 0) + if s.wake then 1 else 0
  }

  function Stage(s: Stream): nat {
    if s.reader.Checking? then 2 else if Busy(s) then 1 else 0
  }

  lemma OwnEnabled(s: Stream)
    requires PlaceInv(s) && Own(s).Some?
    ensures Enabled(s, Own(s).value)
  {
  }

  /** Each own step brings the message on: octets on the wire, a token used up, or a later stage. */
  lemma OwnMeasure(s: Stream)
    requires PlaceInv(s) && s.credit >= 0 && Own(s).Some?
    ensures Enabled(s, Own(s).value)
    ensures var t := Next(s, Own(s).value);
      && (t.reader.Idle? || (Busy(t) && 0 <= Left(t)))
      && (Left(t) < Left(s) || (Left(t) == Left(s) &&
            (Tokens(t) < Tokens(s) || (Tokens(t) == Tokens(s) && Stage(t) < Stage(s)))))
      && t.credit + Paid(t) - Left(t) == s.credit + Paid(s) - Left(s)
      && t.messages == s.messages && t.granted == s.granted
  {
    OwnEnabled(s);
    hide FrameOf;
    match Own(s).value
    case Check =>
    case TakeWake =>
    case OfferWake =>
    case Send =>
    case _ =>
  }

  lemma OwnStep(s: Stream)
    requires Inv(s) && Own(s).Some?
    ensures PlaceInv(s) && s.credit >= 0 && Enabled(s, Own(s).value) && Inv(Next(s, Own(s).value))
  {
    hide BodyInv, FramesInv, WakeInv, Next, Enabled, Octets;
    OwnEnabled(s);
    InvStep(s, Own(s).value);
  }

  /** The state when nothing goes on by itself any more. */
  ghost function Settled(s: Stream): (t: Stream)
    requires Inv(s)
    ensures Inv(t) && Own(t).None?
    decreases Left(s), Tokens(s), Stage(s)
  {
    if Own(s).None? then s
    else
      OwnStep(s);
      OwnMeasure(s);
      OwnBounds(s);
      Settled(Next(s, Own(s).value))
  }

  lemma OwnBounds(s: Stream)
    requires Inv(s)
    ensures Left(s) >= 0
  {
    hide BodyInv, FramesInv;
  }

  /**
   * A message under way always comes to a definite end: it is wholly on the wire if and only if the credit
   * at hand suffices for the rest of it; if not, all credit was used and no token is left over, so only
   * another grant is missing.
   */
  lemma {:induction false} MessageEnds(s: Stream)
    requires Inv(s) && Busy(s)
    ensures var t := Settled(s);
      && (t.reader.Idle? <==> s.credit + Paid(s) >= Left(s))
      && (t.reader.Idle? ==> Received(t.wire).messages == s.messages)
      && (!t.reader.Idle? ==>
            t.reader.Parked? && t.credit == 0 && !t.wake && !t.waking
            && Left(t) == Left(s) - (s.credit + Paid(s)) && Octets(t.wire) == t.granted == s.granted)
    decreases Left(s), Tokens(s), Stage(s)
  {
    hide Inv;
    OwnBounds(s);
    if Own(s).None? {
      StuckHasNoCredit(s);
    } else {
      OwnStep(s);
      OwnMeasure(s);
      var t := Next(s, Own(s).value);
      if Busy(t) {
        MessageEnds(t);
      } else {
        IdleIsDone(t);
      }
    }
  }

  lemma StuckHasNoCredit(s: Stream)
    requires Inv(s) && Busy(s) && Own(s).None?
    ensures s.reader.Parked? && s.credit == 0 && !s.wake && !s.waking && Left(s) > 0 && Octets(s.wire) == s.granted
  {
    hide BodyInv, FramesInv, Octets;
  }

  lemma IdleIsDone(s: Stream)
    requires Inv(s) && s.reader.Idle?
    ensures Own(s).None? && s.credit >= 0 && Received(s.wire).messages == s.messages
  {
    hide FramesInv, Octets, Received;
  }

  // ---- giving up -----------------------------------------------------------------------------

  /** Where it waits, receives or sends the reader may give up, and from then on nothing more is read or sent. */
  lemma {:induction false} GivenUp(s: Stream, more: seq<Action>)
    requires Enabled(s, Quit)
    ensures var t := Apply(Next(s, Quit), more);
      t.reader.Stopped? && t.messages == s.messages && t.wire == s.wire
  {
    if more != [] {
      GivenUp(s, more[..|more| - 1]);
    }
  }

  // ---- the goroutines' code ------------------------------------------------------------------

  /** What the accepting goroutine does, and where it lets the reader run. */
  datatype Peer = Credit(n: nat) | Offer | Yield

  /** The credit and the wake channel that the two goroutines share; the rest is history. */
  class Socket {
    const id: nat
    var credit: int
    var wake: bool
    var waking: bool
    ghost var reader: Reader
    ghost var granted: nat
    ghost var messages: seq<Message>
    var wire: seq<Frame>

    ghost function View(): Stream
      reads this
    {
      Stream(id, credit, wake, waking, reader, granted, messages, wire)
    }

    constructor (id: nat)
      ensures View() == New(id)
    {
      this.id, credit, wake, waking := id, 0, false, false;
      reader, granted, messages, wire := Idle, 0, [], [];
    }

    /** WebSocketCredit under the lock; a grant outside the window closes the gateway. */
    method Grant(n: nat) returns (ok: bool)
      requires !waking && credit <= W.WINDOW
      modifies this
      ensures ok <==> Enabled(old(View()), Action.Grant(n))
      ensures View() == if ok then Next(old(View()), Action.Grant(n)) else old(View())
    {
      if n < 1 || n > W.WINDOW || credit + n > W.WINDOW {
        return false;
      }
      credit, waking, granted := credit + n, true, granted + n;
      return true;
    }

    /** The non-blocking send on the one-slot wake channel. */
    method Wake()
      requires waking
      modifies this
      ensures View() == Next(old(View()), OfferWake)
    {
      waking := false;
      if !wake {
        wake := true;
      }
    }

    /** The accepting goroutine's steps up to its next yield; a step that is not possible is skipped. */
    method Others(peer: seq<Peer>, from: nat) returns (at: nat, ghost trace: seq<Action>)
      requires from <= |peer| && Inv(View())
      modifies this
      ensures from <= at <= |peer| && (from < |peer| ==> from < at) && (at == from ==> wake == old(wake))
      ensures View() == Apply(old(View()), trace) && Inv(View())
      ensures reader == old(reader) && messages == old(messages) && wire == old(wire) && (old(wake) ==> wake)
    {
      at, trace := from, [];
      while at < |peer|
        invariant from <= at <= |peer| && (at == from ==> wake == old(wake))
        invariant View() == Apply(old(View()), trace) && Inv(View())
        invariant reader == old(reader) && messages == old(messages) && wire == old(wire) && (old(wake) ==> wake)
      {
        var step := peer[at];
        at := at + 1;
        ghost var before := View();
        match step
        case Yield => return;
        case Credit(n) =>
          if !waking {
            var ok := Grant(n);
            if ok {
              StepMore(old(View()), trace, Action.Grant(n));
              trace := trace + [Action.Grant(n)];
            }
          }
        case Offer =>
          if waking {
            StepMore(old(View()), trace, OfferWake);
            Wake();
            trace := trace + [OfferWake];
          }
      }
    }

    /** The critical section of the splitting loop: as much credit as there is, at most `amount`. */
    method TakeCredit(m: Message, offset: nat) returns (taken: int)
      requires Inv(View()) && reader == Checking(m, offset)
      modifies this
      ensures Enabled(old(View()), Check) && View() == Next(old(View()), Check)
      ensures 0 <= taken <= Amount(m, offset)
      ensures if taken > 0 then reader == Sending(m, offset, offset + taken) else reader == Parked(m, offset)
      ensures messages == old(messages) && wire == old(wire) && wake == old(wake)
    {
      taken := credit;
      if taken > Amount(m, offset) {
        taken := Amount(m, offset);
      }
      if taken > 0 {
        credit := credit - taken;
        reader := Sending(m, offset, offset + taken);
      } else {
        reader := Parked(m, offset);
      }
    }

    /** The receive from the wake channel that ends the wait. */
    method TakeToken()
      requires reader.Parked? && wake
      modifies this
      ensures Enabled(old(View()), Action.TakeWake) && View() == Next(old(View()), Action.TakeWake)
      ensures reader == Checking(old(reader).m, old(reader).offset) && !wake
      ensures messages == old(messages) && wire == old(wire)
    {
      wake, reader := false, Checking(reader.m, reader.offset);
    }

    /**
     * The inner loop: until there is credit it parks, and nothing but a token wakes it. It gives up only
     * when the peer has done all it will ever do.
     */
    method AwaitCredit(m: Message, offset: nat, peer: seq<Peer>, from: nat)
      returns (taken: int, at: nat, ghost trace: seq<Action>)
      requires Inv(View()) && reader == Checking(m, offset) && from <= |peer|
      modifies this
      ensures View() == Apply(old(View()), trace) && Inv(View())
      ensures from <= at <= |peer| && messages == old(messages) && wire == old(wire)
      ensures if taken > 0 then reader == Sending(m, offset, offset + taken)
              else reader == Parked(m, offset) && !wake && at == |peer|
    {
      hide Inv, Apply, Enabled, Next;
      at, trace := from, [];
      ApplyNothing(View());
      while true
        invariant from <= at <= |peer| && reader == Checking(m, offset)
        invariant View() == Apply(old(View()), trace) && Inv(View())
        invariant messages == old(messages) && wire == old(wire)
        decreases |peer| - at, if wake then 1 else 0
      {
        ghost var more;
        ghost var start, token := at, wake;
        at, more := Others(peer, at);
        ApplyMore(old(View()), trace, more);
        trace := trace + more;
        MayCheck(View());
        StepMore(old(View()), trace, Check);
        taken := TakeCredit(m, offset);
        trace := trace + [Check];
        if taken > 0 {
          return;
        }
        while !wake
          invariant start <= at <= |peer| && reader == Parked(m, offset) && (at == start ==> wake == token)
          invariant View() == Apply(old(View()), trace) && Inv(View())
          invariant messages == old(messages) && wire == old(wire)
          decreases |peer| - at
        {
          if at == |peer| {
            return;
          }
          at, more := Others(peer, at);
          ApplyMore(old(View()), trace, more);
          trace := trace + more;
        }
        MayWake(View());
        StepMore(old(View()), trace, TakeWake);
        TakeToken();
        trace := trace + [TakeWake];
      }
    }

    /** A message has been read from upstream. */
    method Begin(m: Message)
      requires reader == Idle && |m.data| <= W.MAX_MESSAGE
      modifies this
      ensures Enabled(old(View()), Receive(m)) && View() == Next(old(View()), Receive(m))
      ensures messages == old(messages) + [m]
      ensures reader == if m.data == [] then Sending(m, 0, 0) else Checking(m, 0)
    {
      messages, reader := messages + [m], if m.data == [] then Sending(m, 0, 0) else Checking(m, 0);
    }

    /** One frame onto the wire. */
    method Put(m: Message, from: nat, to: nat)
      requires Inv(View()) && reader == Sending(m, from, to)
      modifies this
      ensures Enabled(old(View()), Send) && View() == Next(old(View()), Send)
      ensures messages == old(messages) && reader == if to == |m.data| then Idle else Checking(m, to)
    {
      wire := wire + [FrameOf(id, m, from, to)];
      reader := if to == |m.data| then Idle else Checking(m, to);
    }

    /**
     * The reader's work for one message read from upstream. It is a run of the machine above, so all that
     * holds of its runs holds here. Either the whole message is on the wire, or the reader is parked and
     * the peer has finished, and then, unless the token of a grant is still to be offered, every octet
     * that was ever granted has been used.
     */
    method SendMessage(m: Message, peer: seq<Peer>) returns (sent: bool, ghost trace: seq<Action>)
      requires Inv(View()) && reader == Idle && |m.data| <= W.MAX_MESSAGE
      modifies this
      ensures View() == Apply(old(View()), trace) && Inv(View()) && messages == old(messages) + [m]
      ensures sent ==> reader == Idle && Received(wire).messages == messages
      ensures !sent ==> reader.Parked? && reader.m == m && !wake
      ensures !sent && !waking ==> credit == 0 && Octets(wire) == granted
    {
      hide Inv, Apply, Enabled, Next, Received, Octets;
      ghost var started := View();
      ApplyNothing(started);
      MayReceive(started, m);
      StepMore(started, [], Receive(m));
      Begin(m);
      trace := [] + [Receive(m)];
      if m.data == [] {
        MaySend(View());
        StepMore(started, trace, Send);
        Put(m, 0, 0);
        trace := trace + [Send];
        IdleIsDone(View());
        return true, trace;
      }
      var offset, at := 0, 0;
      while offset < |m.data|
        invariant 0 <= offset <= |m.data| && at <= |peer| && messages == old(messages) + [m]
        invariant View() == Apply(started, trace) && Inv(View())
        invariant reader == if offset < |m.data| then Checking(m, offset) else Idle
      {
        ghost var more;
        var taken;
        taken, at, more := AwaitCredit(m, offset, peer, at);
        ApplyMore(started, trace, more);
        trace := trace + more;
        if taken <= 0 {
          if !waking {
            StuckHasNoCredit(View());
          }
          return false, trace;
        }
        MaySend(View());
        StepMore(started, trace, Send);
        Put(m, offset, offset + taken);
        trace := trace + [Send];
        offset := offset + taken;
      }
      IdleIsDone(View());
      sent := true;
    }
  }

  lemma MayReceive(s: Stream, m: Message)
    requires s.reader.Idle? && |m.data| <= W.MAX_MESSAGE
    ensures Enabled(s, Receive(m))
  {
  }

  lemma MaySend(s: Stream)
    requires Inv(s) && s.reader.Sending?
    ensures Enabled(s, Send) && s.reader.to <= |s.reader.m.data|
  {
  }

  lemma MayCheck(s: Stream)
    requires Inv(s) && s.reader.Checking?
    ensures Enabled(s, Check)
  {
  }

  lemma MayWake(s: Stream)
    requires s.reader.Parked? && s.wake
    ensures Enabled(s, TakeWake)
  {
  }

  lemma ApplyNothing(s: Stream)
    ensures Apply(s, []) == s
  {
  }

  /** A run goes on with one more possible step. */
  lemma StepMore(s: Stream, steps: seq<Action>, a: Action)
    requires Inv(Apply(s, steps)) && Enabled(Apply(s, steps), a)
    ensures Apply(s, steps + [a]) == Next(Apply(s, steps), a) && Inv(Apply(s, steps + [a]))
  {
    hide Inv, Next, Enabled;
    assert (steps + [a])[..|steps|] == steps;
    InvStep(Apply(s, steps), a);
  }

  lemma {:induction false} ApplyMore(s: Stream, steps: seq<Action>, more: seq<Action>)
    ensures Apply(s, steps + more) == Apply(Apply(s, steps), more)
  {
    hide Next, Enabled;
    if more == [] {
      assert steps + more == steps;
    } else {
      assert (steps + more)[..|steps + more| - 1] == steps + more[..|more| - 1];
      ApplyMore(s, steps, more[..|more| - 1]);
    }
  }
}
