/**
 * The download half of one HTTP exchange (internal/httpgateway/gateway.go): the accepting goroutine
 * adds the credit the peer grants and offers a token to a one-slot wake channel; the executor
 * performs the upstream request, then reads no more than the credit allows and passes it on. Each
 * step is one atomic region of the code.
 */
module Download {
  import opened Bytes
  import opened FrameCodec

  /** How a read of the upstream body ended. */
  datatype Outcome = More | EndOfBody | Interrupted

  datatype Executor =
    | Calling                                       // client.Do
    | Responding(meta: seq<Byte>)                   // ResponseStart not on the wire yet
    | Checking                                      // about to look at the credit
    | Parked                                        // found none, waits for a token or for the context
    | Reading(allowed: int)
    | Deducting(data: seq<Byte>, outcome: Outcome)  // read, credit not reduced yet
    | Sending(data: seq<Byte>, outcome: Outcome)    // credit reduced, frame not on the wire yet
    | Ending(kind: Byte, text: seq<Byte>)           // ResponseEnd or ResponseError not on the wire yet
    | Closing
    | Done

  /**
   * `waking` holds between the two steps of a grant: the credit is added, the token not yet offered.
   * The last four fields are history: the credit granted, the octets read from upstream, all that was heard
   * of it, and the answering frames on the wire.
   */
  datatype Download = Download(
    id: nat, credit: int, wake: bool, waking: bool, executor: Executor,
    granted: nat, pulled: seq<Byte>, heard: seq<Heard>, replies: seq<Frame>)

  /** What upstream can be heard to do. */
  datatype Heard = Refused(text: seq<Byte>) | Headed(meta: seq<Byte>) | Piece(data: seq<Byte>) | Ended(clean: bool)

  function New(id: nat): Download {
    Download(id, 0, false, false, Calling, 0, [], [], [])
  }

  datatype Action =
    | Grant(n: nat) | OfferWake
    | CallDone(meta: seq<Byte>) | CallFails(text: seq<Byte>) | SendStart | Check | TakeWake
    | Read(data: seq<Byte>, outcome: Outcome) | Deduct | SendBody | SendEnd | Quit | Remove

  predicate Enabled(d: Download, a: Action) {
    match a
    case Grant(n) => !d.waking && 1 <= n <= WINDOW && d.credit + n <= WINDOW
    case OfferWake => d.waking
    case CallDone(meta) => d.executor.Calling? && |meta| <= MAX_METADATA
    case CallFails(text) => d.executor.Calling? && |text| <= CHUNK
    case SendStart => d.executor.Responding?
    case Check => d.executor.Checking?
    case TakeWake => d.executor.Parked? && d.wake
    case Read(data, _) => d.executor.Reading? && |data| <= d.executor.allowed
    case Deduct => d.executor.Deducting?
    case SendBody => d.executor.Sending?
    case SendEnd => d.executor.Ending?
    case Quit => d.executor.Parked? || Emits(d)
    case Remove => d.executor.Closing?
  }

  /** Whether the executor is about to put a frame on the wire; if the write fails it quits. */
  predicate Emits(d: Download) {
    d.executor.Responding? || d.executor.Sending? || d.executor.Ending?
  }

  function Emitted(d: Download): Frame
    requires Emits(d)
  {
    match d.executor
    case Responding(meta) => Frame(RESPONSE_START, d.id, meta)
    case Sending(data, _) => Frame(RESPONSE_BODY, d.id, data)
    case Ending(kind, text) => Frame(kind, d.id, text)
  }

  /** Where the executor goes once the octets of a read have been passed on. */
  function AfterRead(outcome: Outcome): Executor {
    match outcome
    case More => Checking
    case EndOfBody => Ending(RESPONSE_END, [])
    case Interrupted => Ending(RESPONSE_ERROR, INTERRUPTED)
  }

  const INTERRUPTED: seq<Byte> := Ascii("upstream response interrupted")

  /** What one read tells. */
  function Told(data: seq<Byte>, outcome: Outcome): seq<Heard> {
    (if data == [] then [] else [Piece(data)])
    + match outcome
      case More => []
      case EndOfBody => [Ended(true)]
      case Interrupted => [Ended(false)]
  }

  function Min(a: int, b: int): int {
    if a < b then a else b
  }

  function Next(d: Download, a: Action): Download
    requires Enabled(d, a)
  {
    match a
    case Grant(n) => d.(credit := d.credit + n, waking := true, granted := d.granted + n)
    case OfferWake => d.(wake := true, waking := false)
    case CallDone(meta) => d.(executor := Responding(meta), heard := d.heard + [Headed(meta)])
    case CallFails(text) => d.(executor := Ending(RESPONSE_ERROR, text), heard := d.heard + [Refused(text)])
    case SendStart => d.(executor := Checking, replies := d.replies + [Emitted(d)])
    case Check => d.(executor := if d.credit == 0 then Parked else Reading(Min(d.credit, CHUNK)))
    case TakeWake => d.(wake := false, executor := Checking)
    case Read(data, outcome) =>
      d.(pulled := d.pulled + data, heard := d.heard + Told(data, outcome),
         executor := if data == [] then AfterRead(outcome) else Deducting(data, outcome))
    case Deduct =>
      d.(credit := d.credit - |d.executor.data|, executor := Sending(d.executor.data, d.executor.outcome))
    case SendBody => d.(executor := AfterRead(d.executor.outcome), replies := d.replies + [Emitted(d)])
    case SendEnd => d.(executor := Closing, replies := d.replies + [Emitted(d)])
    case Quit => d.(executor := Closing)
    case Remove => d.(executor := Done)
  }

  // ---- flow control --------------------------------------------------------------------------

  /** Payloads of the body frames on the wire, in order. */
  function Sent(replies: seq<Frame>): seq<Byte> {
    if replies == [] then []
    else
      var f := replies[|replies| - 1];
      Sent(replies[..|replies| - 1]) + if f.kind == RESPONSE_BODY then f.data else []
  }

  lemma SentAppend(replies: seq<Frame>, f: Frame)
    ensures Sent(replies + [f]) == Sent(replies) + if f.kind == RESPONSE_BODY then f.data else []
  {
    assert (replies + [f])[..|replies|] == replies;
  }

  /** Octets read but not on the wire, and the ones among them already taken from the credit. */
  function Held(d: Download): seq<Byte> {
    if d.executor.Deducting? || d.executor.Sending? then d.executor.data else []
  }

  function Paid(d: Download): nat {
    if d.executor.Sending? then |d.executor.data| else 0
  }

  predicate Over(d: Download) {
    d.executor.Closing? || d.executor.Done?
  }

  ghost predicate CreditInv(d: Download) {
    && 0 <= d.credit <= WINDOW
    && (d.executor.Reading? ==> 1 <= d.executor.allowed <= CHUNK && d.executor.allowed <= d.credit)
    && |Held(d)| <= CHUNK && (d.executor.Deducting? ==> |Held(d)| <= d.credit)
    && d.credit + Paid(d) + |Sent(d.replies)| <= d.granted
    && (!Over(d) ==> d.credit + Paid(d) + |Sent(d.replies)| == d.granted)
  }

  ghost predicate BodyInv(d: Download) {
    && Sent(d.replies) <= d.pulled
    && (!Over(d) ==> Sent(d.replies) + Held(d) == d.pulled)
  }

  ghost predicate WakeInv(d: Download) {
    d.executor.Parked? && d.credit > 0 ==> d.wake || d.waking
  }

  // ---- the shape of the answer ---------------------------------------------------------------

  /** Start Body*. */
  ghost predicate Started(r: seq<Frame>) {
    r != [] && r[0].kind == RESPONSE_START && forall i | 1 <= i < |r| :: r[i].kind == RESPONSE_BODY
  }

  /** A lone Error, or Start Body* followed by End or Error. */
  ghost predicate Finished(r: seq<Frame>) {
    && r != []
    && var last := r[|r| - 1].kind;
       || (|r| == 1 && last == RESPONSE_ERROR)
       || ((last == RESPONSE_END || last == RESPONSE_ERROR) && Started(r[..|r| - 1]))
  }

  /** All frames are about one exchange and none is too long. */
  ghost predicate Addressed(r: seq<Frame>, id: nat) {
    forall i | 0 <= i < |r| :: r[i].id == id && |r[i].data| <= CHUNK
  }

  ghost predicate ShapeInv(d: Download) {
    var r := d.replies;
    && Addressed(r, d.id)
    && match d.executor
       case Calling => r == []
       case Responding(meta) => r == [] && |meta| <= MAX_METADATA
       case Ending(kind, text) =>
         && |text| <= CHUNK
         && (kind == RESPONSE_ERROR || (kind == RESPONSE_END && r != []))
         && (r == [] || Started(r))
       case Closing => r == [] || Started(r) || Finished(r)
       case Done => r == [] || Started(r) || Finished(r)
       case _ => Started(r)
  }

  // ---- the answer tells what was heard -------------------------------------------------------

  function FrameOf(h: Heard, id: nat): Frame {
    match h
    case Refused(text) => Frame(RESPONSE_ERROR, id, text)
    case Headed(meta) => Frame(RESPONSE_START, id, meta)
    case Piece(data) => Frame(RESPONSE_BODY, id, data)
    case Ended(clean) => Frame(if clean then RESPONSE_END else RESPONSE_ERROR, id, if clean then [] else INTERRUPTED)
  }

  /** One frame for each thing heard of upstream. */
  function Transcript(heard: seq<Heard>, id: nat): seq<Frame> {
    seq(|heard|, i requires 0 <= i < |heard| => FrameOf(heard[i], id))
  }

  lemma TranscriptConcat(a: seq<Heard>, b: seq<Heard>, id: nat)
    ensures Transcript(a + b, id) == Transcript(a, id) + Transcript(b, id)
  {
  }

  /** Frames for what was heard and is not yet passed on. */
  function Coming(d: Download): seq<Frame> {
    match d.executor
    case Responding(meta) => [Frame(RESPONSE_START, d.id, meta)]
    case Deducting(data, outcome) => Transcript(Told(data, outcome), d.id)
    case Sending(data, outcome) => Transcript(Told(data, outcome), d.id)
    case Ending(kind, text) => [Frame(kind, d.id, text)]
    case _ => []
  }

  predicate Complete(r: seq<Frame>) {
    r != [] && (r[|r| - 1].kind == RESPONSE_END || r[|r| - 1].kind == RESPONSE_ERROR)
  }

  ghost predicate TellInv(d: Download) {
    && (!Over(d) ==> d.replies + Coming(d) == Transcript(d.heard, d.id) && !Complete(d.replies))
    && d.replies <= Transcript(d.heard, d.id)
    && (Complete(d.replies) ==> d.replies == Transcript(d.heard, d.id))
    && (d.executor.Deducting? || d.executor.Sending? ==> d.executor.data != [])
    && (d.executor.Ending? ==> d.executor.kind == RESPONSE_END || d.executor.kind == RESPONSE_ERROR)
  }

  lemma ToldFrames(data: seq<Byte>, outcome: Outcome, id: nat)
    ensures data != [] ==>
      Transcript(Told(data, outcome), id) == [Frame(RESPONSE_BODY, id, data)] + Transcript(Told([], outcome), id)
    ensures Transcript(Told([], outcome), id) ==
      match outcome
      case More => []
      case EndOfBody => [Frame(RESPONSE_END, id, [])]
      case Interrupted => [Frame(RESPONSE_ERROR, id, INTERRUPTED)]
  {
  }

  lemma TellSend(d: Download, a: Action)
    requires TellInv(d) && Enabled(d, a) && (a.SendStart? || a.SendBody? || a.SendEnd?)
    ensures TellInv(Next(d, a))
  {
    hide Transcript, Told;
    var d' := Next(d, a);
    if a.SendBody? { ToldFrames(d.executor.data, d.executor.outcome, d.id); }
    assert Coming(d) == [Emitted(d)] + Coming(d');
    assert d'.replies + Coming(d') == d.replies + ([Emitted(d)] + Coming(d'));
  }

  /** What the executor hears in a step. */
  function News(a: Action): seq<Heard> {
    match a
    case CallDone(meta) => [Headed(meta)]
    case CallFails(text) => [Refused(text)]
    case Read(data, outcome) => Told(data, outcome)
    case _ => []
  }

  lemma Hears(d: Download, a: Action)
    requires Enabled(d, a) && (a.CallDone? || a.CallFails? || a.Read?)
    ensures Next(d, a).heard == d.heard + News(a) && Next(d, a).replies == d.replies
    ensures Coming(d) == [] && Coming(Next(d, a)) == Transcript(News(a), d.id)
  {
    if a.Read? { ToldFrames(a.data, a.outcome, d.id); }
  }

  lemma TellHear(d: Download, a: Action)
    requires TellInv(d) && Enabled(d, a) && (a.CallDone? || a.CallFails? || a.Read?)
    ensures TellInv(Next(d, a))
  {
    Hears(d, a);
    TranscriptConcat(d.heard, News(a), d.id);
    hide Transcript, Told, News;
    assert d.replies + [] == d.replies;
  }

  lemma TellOther(d: Download, a: Action)
    requires TellInv(d) && Enabled(d, a)
    requires !a.SendStart? && !a.SendBody? && !a.SendEnd? && !a.CallDone? && !a.CallFails? && !a.Read?
    ensures TellInv(Next(d, a))
  {
    hide Transcript, Told;
  }

  lemma TellStep(d: Download, a: Action)
    requires TellInv(d) && Enabled(d, a)
    ensures TellInv(Next(d, a))
  {
    hide TellInv, Next, Enabled;
    match a
    case SendStart => TellSend(d, a);
    case SendBody => TellSend(d, a);
    case SendEnd => TellSend(d, a);
    case CallDone(_) => TellHear(d, a);
    case CallFails(_) => TellHear(d, a);
    case Read(_, _) => TellHear(d, a);
    case _ => TellOther(d, a);
  }

  ghost predicate Inv(d: Download) {
    CreditInv(d) && BodyInv(d) && WakeInv(d) && ShapeInv(d) && TellInv(d)
  }

  ghost predicate FlowInv(d: Download) {
    CreditInv(d) && BodyInv(d) && WakeInv(d) && (d.executor.Ending? ==> d.executor.kind != RESPONSE_BODY)
  }

  lemma SendStep(d: Download, a: Action)
    requires FlowInv(d) && Enabled(d, a) && (a.SendStart? || a.SendBody? || a.SendEnd?)
    ensures FlowInv(Next(d, a))
  {
    hide Sent;
    var d' := Next(d, a);
    SentAppend(d.replies, Emitted(d));
    assert d'.replies == d.replies + [Emitted(d)];
    assert Held(d') == [] && Paid(d') == 0 && Sent(d'.replies) + [] == Sent(d'.replies);
    assert Sent(d'.replies) == Sent(d.replies) + Held(d);
  }

  /** The accepting goroutine's two steps. */
  lemma GrantStep(d: Download, a: Action)
    requires FlowInv(d) && Enabled(d, a) && (a.Grant? || a.OfferWake?)
    ensures FlowInv(Next(d, a))
  {
    hide Sent;
  }

  /** Looking at the credit, waiting for it, and giving up. */
  lemma WaitStep(d: Download, a: Action)
    requires FlowInv(d) && Enabled(d, a)
    requires a.CallDone? || a.CallFails? || a.Check? || a.TakeWake? || a.Quit? || a.Remove?
    ensures FlowInv(Next(d, a))
  {
    hide Sent;
  }

  /** Reading from upstream, and taking what was read from the credit. */
  lemma ReadStep(d: Download, a: Action)
    requires FlowInv(d) && Enabled(d, a) && (a.Read? || a.Deduct?)
    ensures FlowInv(Next(d, a))
  {
    hide Sent;
  }

  lemma FlowStep(d: Download, a: Action)
    requires FlowInv(d) && Enabled(d, a)
    ensures FlowInv(Next(d, a))
  {
    hide FlowInv, Next, Enabled;
    match a
    case SendStart => SendStep(d, a);
    case SendBody => SendStep(d, a);
    case SendEnd => SendStep(d, a);
    case Grant(_) => GrantStep(d, a);
    case OfferWake => GrantStep(d, a);
    case Read(_, _) => ReadStep(d, a);
    case Deduct => ReadStep(d, a);
    case _ => WaitStep(d, a);
  }

  /** How one more frame continues an answer. */
  lemma AnswerGrows(r: seq<Frame>, f: Frame, id: nat)
    ensures Addressed(r, id) && f.id == id && |f.data| <= CHUNK ==> Addressed(r + [f], id)
    ensures r == [] && f.kind == RESPONSE_START ==> Started(r + [f])
    ensures Started(r) && f.kind == RESPONSE_BODY ==> Started(r + [f])
    ensures r == [] && f.kind == RESPONSE_ERROR ==> Finished(r + [f])
    ensures Started(r) && (f.kind == RESPONSE_END || f.kind == RESPONSE_ERROR) ==> Finished(r + [f])
  {
    assert (r + [f])[..|r|] == r;
  }

  lemma ShapeSendStep(d: Download, a: Action)
    requires ShapeInv(d) && CreditInv(d) && Enabled(d, a) && (a.SendStart? || a.SendBody? || a.SendEnd?)
    ensures ShapeInv(Next(d, a))
  {
    assert |Held(d)| <= CHUNK;
    hide CreditInv;
    var r, f := d.replies, Emitted(d);
    assert f.id == d.id && |f.data| <= CHUNK;
    AnswerGrows(r, f, d.id);
    hide Started, Finished, Addressed;
    match a
    case SendStart =>
    case SendBody =>
    case SendEnd =>
  }

  lemma ShapeQuietStep(d: Download, a: Action)
    requires ShapeInv(d) && Enabled(d, a) && !a.SendStart? && !a.SendBody? && !a.SendEnd?
    ensures ShapeInv(Next(d, a))
  {
    assert Started(d.replies) ==> d.replies != [];
    hide Started, Finished, Addressed;
  }

  lemma ShapeStep(d: Download, a: Action)
    requires ShapeInv(d) && CreditInv(d) && Enabled(d, a)
    ensures ShapeInv(Next(d, a))
  {
    if a.SendStart? || a.SendBody? || a.SendEnd? { ShapeSendStep(d, a); } else { ShapeQuietStep(d, a); }
  }

  lemma InvStep(d: Download, a: Action)
    requires Inv(d) && Enabled(d, a)
    ensures Inv(Next(d, a)) && Next(d, a).id == d.id
  {
    hide CreditInv, BodyInv, WakeInv, ShapeInv, TellInv;
    if d.executor.Ending? { ShapeKinds(d); }
    assert FlowInv(d);
    FlowStep(d, a);
    ShapeStep(d, a);
    TellStep(d, a);
  }

  lemma ShapeKinds(d: Download)
    requires ShapeInv(d) && d.executor.Ending?
    ensures d.executor.kind != RESPONSE_BODY
  {
  }

  /** What the executor's steps leave alone, and the frame they add. */
  lemma ExecutorEffect(d: Download, a: Action)
    requires Inv(d) && Enabled(d, a) && !a.Grant? && !a.OfferWake?
    ensures var d' := Next(d, a);
      && d'.waking == d.waking && (d'.executor.Done? <==> a.Remove? || d.executor.Done?)
      && if a.SendStart? || a.SendBody? || a.SendEnd?
         then Emits(d) && d'.replies == d.replies + [Emitted(d)] && Emitted(d).kind != UPLOAD_CREDIT
              && Emitted(d).id == d.id && |Emitted(d).data| <= CHUNK
         else d'.replies == d.replies
  {
  }

  // ---- every run -----------------------------------------------------------------------------

  /** The state after a list of attempted steps; one whose guard is false does nothing. */
  function Run(id: nat, steps: seq<Action>): Download {
    if steps == [] then New(id)
    else
      var d := Run(id, steps[..|steps| - 1]);
      var a := steps[|steps| - 1];
      if Enabled(d, a) then Next(d, a) else d
  }

  lemma {:induction false} RunInv(id: nat, steps: seq<Action>)
    ensures Inv(Run(id, steps)) && Run(id, steps).id == id
  {
    if steps != [] {
      var d := Run(id, steps[..|steps| - 1]);
      RunInv(id, steps[..|steps| - 1]);
      if Enabled(d, steps[|steps| - 1]) {
        InvStep(d, steps[|steps| - 1]);
      }
    }
  }

  /** The credit stays within the window, and body octets on the wire within the credit granted. */
  lemma FlowControl(id: nat, steps: seq<Action>)
    ensures var d := Run(id, steps);
      && 0 <= d.credit <= WINDOW
      && d.credit + Paid(d) + |Sent(d.replies)| <= d.granted
      && (!Over(d) ==> d.credit + Paid(d) + |Sent(d.replies)| == d.granted)
  {
    RunInv(id, steps);
  }

  /** What the peer gets is what upstream sent, in order: a prefix always, all of it at a clean end. */
  lemma FaithfulBody(id: nat, steps: seq<Action>)
    ensures var d := Run(id, steps);
      && Sent(d.replies) <= d.pulled
      && (d.executor.Ending? || d.executor.Parked? ==> Sent(d.replies) == d.pulled)
  {
    RunInv(id, steps);
  }

  /**
   * No wakeup is lost. Credit never lies unannounced beside a parked executor: a token is there to be
   * taken, or offering it is the accepting goroutine's very next step, after which it is.
   */
  lemma NoLostWakeup(id: nat, steps: seq<Action>)
    requires Run(id, steps).executor.Parked? && Run(id, steps).credit > 0
    ensures var d := Run(id, steps);
      && (Enabled(d, TakeWake) || Enabled(d, OfferWake))
      && (Enabled(d, OfferWake) ==> Enabled(Next(d, OfferWake), TakeWake))
      && var woken := if Enabled(d, TakeWake) then Next(d, TakeWake) else Next(Next(d, OfferWake), TakeWake);
         Next(woken, Check).executor == Reading(Min(d.credit, CHUNK))
  {
    RunInv(id, steps);
  }

  /** Every answer is a prefix of Start Body* (End or Error), or a lone Error. */
  lemma AnswerShape(id: nat, steps: seq<Action>)
    ensures var d := Run(id, steps);
      && (d.replies == [] || Started(d.replies) || Finished(d.replies))
      && (forall f | f in d.replies :: f.id == id && |f.data| <= CHUNK)
      && (Finished(d.replies) ==> Over(d))
  {
    RunInv(id, steps);
  }

  /**
   * The answer is an exact transcript. In every interleaving each frame stands for one thing heard of
   * upstream, in order: its refusal, its head, a piece of its body, its clean or unclean end. None is
   * missing while the executor works, and none in an answer that has come to its last frame.
   */
  lemma TellsWhatWasHeard(id: nat, steps: seq<Action>)
    ensures var d := Run(id, steps);
      && d.replies <= Transcript(d.heard, id)
      && (!Over(d) ==> d.replies + Coming(d) == Transcript(d.heard, id))
      && (Complete(d.replies) ==> d.replies == Transcript(d.heard, id))
  {
    RunInv(id, steps);
  }

  // ---- the executor gets on ------------------------------------------------------------------

  lemma RunOneMore(id: nat, steps: seq<Action>, a: Action)
    requires Enabled(Run(id, steps), a)
    ensures Run(id, steps + [a]) == Next(Run(id, steps), a)
  {
    assert (steps + [a])[..|steps|] == steps;
  }

  /**
   * With credit, the executor reads as much as that and a frame allow, and one piece of the body becomes one
   * frame; the credit falls by its length, and then it looks again, or ends the answer as upstream did.
   */
  lemma PassesOn(id: nat, steps: seq<Action>, data: seq<Byte>, outcome: Outcome)
    requires var d := Run(id, steps); d.executor.Checking? && d.credit > 0
    requires 0 < |data| <= 0x4000 && |data| <= Run(id, steps).credit
    ensures var d := Run(id, steps);
      var d' := Run(id, steps + [Check] + [Read(data, outcome)] + [Deduct] + [SendBody]);
      && d' == d.(credit := d.credit - |data|, pulled := d.pulled + data, heard := d'.heard, executor := d'.executor,
                  replies := d.replies + [Frame(RESPONSE_BODY, id, data)])
      && match outcome
         case More => d'.executor == Checking
         case EndOfBody => d'.executor == Ending(RESPONSE_END, [])
         case Interrupted => d'.executor == Ending(RESPONSE_ERROR, INTERRUPTED)
  {
    RunInv(id, steps);
    var d := Run(id, steps);
    hide Run, Inv;
    RunOneMore(id, steps, Check);
    RunOneMore(id, steps + [Check], Read(data, outcome));
    RunOneMore(id, steps + [Check] + [Read(data, outcome)], Deduct);
    RunOneMore(id, steps + [Check] + [Read(data, outcome)] + [Deduct], SendBody);
  }

  /** An end without further octets, and the last frame; then the exchange is removed. */
  lemma Ends(id: nat, steps: seq<Action>, clean: bool)
    requires var d := Run(id, steps); d.executor.Checking? && d.credit > 0
    ensures var d := Run(id, steps);
      var d' := Run(id, steps + [Check] + [Read([], if clean then EndOfBody else Interrupted)] + [SendEnd] + [Remove]);
      d' == d.(executor := Done, heard := d.heard + [Ended(clean)],
               replies := d.replies + [Frame(if clean then RESPONSE_END else RESPONSE_ERROR, id, if clean then [] else INTERRUPTED)])
  {
    RunInv(id, steps);
    var d, last := Run(id, steps), Read([], if clean then EndOfBody else Interrupted);
    assert d.pulled + [] == d.pulled;
    hide Run, Inv;
    RunOneMore(id, steps, Check);
    RunOneMore(id, steps + [Check], last);
    assert Told([], last.outcome) == [Ended(clean)];
    RunOneMore(id, steps + [Check] + [last], SendEnd);
    RunOneMore(id, steps + [Check] + [last] + [SendEnd], Remove);
  }

  /** A call begins the answer with its metadata, or is the whole of it with its error. */
  lemma Begins(id: nat, steps: seq<Action>, text: seq<Byte>)
    requires Run(id, steps).executor.Calling? && |text| <= CHUNK
    ensures var d := Run(id, steps);
      Run(id, steps + [CallFails(text)] + [SendEnd] + [Remove]) ==
        d.(executor := Done, heard := d.heard + [Refused(text)], replies := [Frame(RESPONSE_ERROR, id, text)])
    ensures var d := Run(id, steps);
      |text| <= MAX_METADATA ==>
        (Run(id, steps + [CallDone(text)] + [SendStart]) ==
         d.(executor := Checking, heard := d.heard + [Headed(text)], replies := [Frame(RESPONSE_START, id, text)]))
  {
    RunInv(id, steps);
    assert Run(id, steps).replies == [];
    hide Run, Inv;
    RunOneMore(id, steps, CallFails(text));
    RunOneMore(id, steps + [CallFails(text)], SendEnd);
    RunOneMore(id, steps + [CallFails(text)] + [SendEnd], Remove);
    if |text| <= MAX_METADATA {
      RunOneMore(id, steps, CallDone(text));
      RunOneMore(id, steps + [CallDone(text)], SendStart);
    }
  }

  /**
   * A parked executor with a token goes on and uses it up. One that is parked, or cannot write, may give up;
   * then no frame follows.
   */
  lemma WakesOrQuits(id: nat, steps: seq<Action>)
    ensures var d := Run(id, steps);
      d.executor.Parked? && d.wake ==> Run(id, steps + [TakeWake]) == d.(wake := false, executor := Checking)
    ensures var d := Run(id, steps);
      Enabled(d, Quit) ==> Run(id, steps + [Quit] + [Remove]) == d.(executor := Done)
  {
    var d := Run(id, steps);
    if d.executor.Parked? && d.wake { RunOneMore(id, steps, TakeWake); }
    if Enabled(d, Quit) {
      RunOneMore(id, steps, Quit);
      RunOneMore(id, steps + [Quit], Remove);
    }
  }
}
