/**
 * The upload half of one HTTP exchange (internal/httpgateway/gateway.go): the accepting goroutine
 * takes request body chunks out of a 64 KiB window and into a five-slot channel, the forwarder
 * goroutine writes them to the upstream request and gives the window back as upload credit. Each
 * step is one atomic region of the code.
 */
module Upload {
  import opened Bytes
  import opened FrameCodec

  const SLOTS: nat := 5

  /** What the accepting goroutine still owes the frame it is handling. */
  datatype Feeder =
    | Idle
    | Opening                    // the initial UploadCredit frame is not on the wire yet
    | Pushing(chunk: seq<Byte>)  // taken from the window, not yet in the channel

  datatype Forwarder =
    | Waiting
    | Writing(chunk: seq<Byte>)
    | Accounting(n: nat)         // upstream has the chunk, the window does not show it yet
    | Crediting(n: nat)          // window restored, UploadCredit frame not on the wire yet
    | Stopped(complete: bool)

  /**
   * `uploaded` is what is left of the window and `queue` the channel, where an empty chunk is the end
   * mark (the code sends nil). The rest is history: the chunks admitted by the one goroutine and
   * taken by the other, the octets upstream has received, and the total and the number of the
   * UploadCredit frames on the wire.
   */
  datatype Upload = Upload(
    uploaded: int, ended: bool, queue: seq<seq<Byte>>, feeder: Feeder, forwarder: Forwarder,
    admitted: seq<seq<Byte>>, taken: seq<seq<Byte>>, forwarded: seq<Byte>, returned: nat, frames: nat)

  const NEW: Upload := Upload(WINDOW, false, [], Opening, Waiting, [], [], [], 0, 0)

  datatype Action =
    | OpenWindow | AdmitBody(data: seq<Byte>) | AdmitEnd | Push
    | Take | WriteDone | WriteFails(k: nat) | Account | ReturnCredit | Quit

  predicate Enabled(u: Upload, a: Action) {
    match a
    case OpenWindow => u.feeder.Opening?
    case AdmitBody(data) => u.feeder.Idle? && 0 < |data| <= CHUNK && !u.ended && |data| <= u.uploaded
    case AdmitEnd => u.feeder.Idle? && !u.ended
    case Push => u.feeder.Pushing? && |u.queue| < SLOTS
    case Take => u.forwarder.Waiting? && u.queue != []
    case WriteDone => u.forwarder.Writing?
    case WriteFails(k) => u.forwarder.Writing? && k <= |u.forwarder.chunk|
    case Account => u.forwarder.Accounting?
    case ReturnCredit => u.forwarder.Crediting?
    case Quit => u.forwarder.Waiting? || u.forwarder.Crediting?
  }

  function Next(u: Upload, a: Action): Upload
    requires Enabled(u, a)
  {
    match a
    case OpenWindow => u.(feeder := Idle, returned := u.returned + WINDOW, frames := u.frames + 1)
    case AdmitBody(data) =>
      u.(uploaded := u.uploaded - |data|, feeder := Pushing(data), admitted := u.admitted + [data])
    case AdmitEnd => u.(ended := true, feeder := Pushing([]), admitted := u.admitted + [[]])
    case Push => u.(queue := u.queue + [u.feeder.chunk], feeder := Idle)
    case Take =>
      u.(queue := u.queue[1..], taken := u.taken + [u.queue[0]],
         forwarder := if u.queue[0] == [] then Stopped(true) else Writing(u.queue[0]))
    case WriteDone => u.(forwarded := u.forwarded + u.forwarder.chunk, forwarder := Accounting(|u.forwarder.chunk|))
    case WriteFails(k) => u.(forwarded := u.forwarded + u.forwarder.chunk[..k], forwarder := Stopped(false))
    case Account => u.(uploaded := u.uploaded + u.forwarder.n, forwarder := Crediting(u.forwarder.n))
    case ReturnCredit =>
      u.(forwarder := Waiting, returned := u.returned + u.forwarder.n, frames := u.frames + 1)
    case Quit => u.(forwarder := Stopped(false))
  }

  // ---- where the octets are ------------------------------------------------------------------

  /** Admitted chunks the forwarder has not taken: in the channel or about to enter it. */
  function Backlog(u: Upload): seq<seq<Byte>> {
    u.queue + if u.feeder.Pushing? then [u.feeder.chunk] else []
  }

  function Queued(u: Upload): nat {
    |Flatten(Backlog(u))|
  }

  /** Octets the forwarder has taken from the channel but not given back to the window. */
  function InHand(u: Upload): nat {
    match u.forwarder
    case Writing(chunk) => |chunk|
    case Accounting(n) => n
    case _ => 0
  }

  /** Upload credit that is on its way to the wire. */
  function Owed(u: Upload): nat {
    (if u.feeder.Opening? then WINDOW else 0) + if u.forwarder.Crediting? then u.forwarder.n else 0
  }

  function Accepted(u: Upload): seq<Byte> {
    Flatten(u.admitted)
  }

  /** Every chunk fits a frame. */
  ghost predicate Short(chunks: seq<seq<Byte>>) {
    forall i | 0 <= i < |chunks| :: |chunks[i]| <= CHUNK
  }

  /** Only the last chunk may be the end mark. */
  ghost predicate Whole(chunks: seq<seq<Byte>>) {
    forall i | 0 <= i < |chunks| - 1 :: chunks[i] != []
  }

  ghost predicate ChunksInv(u: Upload) {
    && |u.queue| <= SLOTS
    && u.admitted == u.taken + Backlog(u)
    && Short(u.admitted) && Whole(u.admitted)
    && (u.ended <==> u.admitted != [] && u.admitted[|u.admitted| - 1] == [])
  }

  ghost predicate OrderInv(u: Upload) {
    match u.forwarder
    case Writing(chunk) => 0 < |chunk| <= CHUNK && u.forwarded + chunk == Flatten(u.taken)
    case Stopped(complete) =>
      && u.forwarded <= Flatten(u.taken)
      && (complete ==> u.ended && Backlog(u) == [] && u.forwarded == Flatten(u.taken))
    case Accounting(n) => n <= CHUNK && u.forwarded == Flatten(u.taken)
    case Crediting(n) => n <= CHUNK && u.forwarded == Flatten(u.taken)
    case Waiting => u.forwarded == Flatten(u.taken)
  }

  ghost predicate WindowInv(u: Upload) {
    && u.uploaded >= 0
    && u.uploaded + Queued(u) + InHand(u) <= WINDOW
    && (!u.forwarder.Stopped? ==> u.uploaded + Queued(u) + InHand(u) == WINDOW)
  }

  ghost predicate CreditInv(u: Upload) {
    && u.returned + Owed(u) <= u.uploaded + |Accepted(u)|
    && (!u.forwarder.Stopped? ==> u.returned + Owed(u) == u.uploaded + |Accepted(u)|)
  }

  /** Chunks answered by a credit frame; the first such frame answers none. */
  function Answered(u: Upload): int {
    u.frames - if u.feeder.Opening? then 0 else 1
  }

  predicate Holds(u: Upload) {
    u.forwarder.Writing? || u.forwarder.Accounting? || u.forwarder.Crediting?
  }

  /** Chunks are answered one by one in the order they are taken. */
  ghost predicate AnswerInv(u: Upload) {
    && Answered(u) <= |u.taken| <= Answered(u) + 1
    && (!u.forwarder.Stopped? ==> |u.taken| == Answered(u) + if Holds(u) then 1 else 0)
    && (u.forwarder == Stopped(true) ==> u.ended && Backlog(u) == [])
  }

  ghost predicate Inv(u: Upload) {
    ChunksInv(u) && OrderInv(u) && WindowInv(u) && CreditInv(u) && AnswerInv(u)
  }

  lemma AppendWhole(chunks: seq<seq<Byte>>, chunk: seq<Byte>)
    requires Whole(chunks) && (chunks != [] ==> chunks[|chunks| - 1] != [])
    ensures Whole(chunks + [chunk])
  {
  }

  lemma AppendShort(chunks: seq<seq<Byte>>, chunk: seq<Byte>)
    requires Short(chunks) && |chunk| <= CHUNK
    ensures Short(chunks + [chunk])
  {
  }

  lemma AdmitChunks(u: Upload, a: Action)
    requires ChunksInv(u) && Enabled(u, a) && (a.AdmitBody? || a.AdmitEnd?)
    ensures ChunksInv(Next(u, a))
    ensures Backlog(u) == u.queue && Backlog(Next(u, a)) == u.queue + [Next(u, a).feeder.chunk]
  {
    hide Short, Whole;
    var u' := Next(u, a);
    var chunk := u'.feeder.chunk;
    AppendWhole(u.admitted, chunk);
    AppendShort(u.admitted, chunk);
    assert Backlog(u) == u.queue;
    assert u'.admitted == u.admitted + [chunk] == u.taken + (u.queue + [chunk]);
  }

  lemma AdmitStep(u: Upload, a: Action)
    requires Inv(u) && Enabled(u, a) && (a.AdmitBody? || a.AdmitEnd?)
    ensures Inv(Next(u, a))
  {
    hide ChunksInv, Flatten, Backlog;
    AdmitChunks(u, a);
    var chunk := Next(u, a).feeder.chunk;
    FlattenAppend(u.admitted, chunk);
    FlattenAppend(u.queue, chunk);
  }

  lemma TakeChunks(u: Upload)
    requires ChunksInv(u) && Enabled(u, Take)
    ensures ChunksInv(Next(u, Take)) && Backlog(u) != [] && Backlog(u)[0] == u.queue[0] && |u.queue[0]| <= CHUNK
    ensures Backlog(Next(u, Take)) == Backlog(u)[1..]
    ensures u.queue[0] == [] ==> u.ended && Backlog(u)[1..] == []
  {
    var u' := Next(u, Take);
    assert u.admitted[|u.taken|] == u.queue[0];
    assert Backlog(u') == Backlog(u)[1..];
    assert u'.admitted == u'.taken + Backlog(u');
  }

  lemma TakeStep(u: Upload)
    requires Inv(u) && Enabled(u, Take)
    ensures Inv(Next(u, Take))
  {
    hide ChunksInv, Flatten, Backlog;
    TakeChunks(u);
    FlattenAppend(u.taken, u.queue[0]);
    FlattenFirst(Backlog(u));
    FlattenNothing();
  }

  lemma FlattenNothing()
    ensures Flatten([]) == []
  {
  }

  lemma OtherChunks(u: Upload, a: Action)
    requires ChunksInv(u) && Enabled(u, a) && !a.AdmitBody? && !a.AdmitEnd? && !a.Take?
    ensures ChunksInv(Next(u, a)) && Backlog(Next(u, a)) == Backlog(u)
    ensures Next(u, a).taken == u.taken && Next(u, a).admitted == u.admitted && Next(u, a).ended == u.ended
  {
    assert Backlog(Next(u, a)) == Backlog(u);
  }

  /** All other steps leave the chunks where they are. */
  lemma OtherStep(u: Upload, a: Action)
    requires Inv(u) && Enabled(u, a) && !a.AdmitBody? && !a.AdmitEnd? && !a.Take?
    ensures Inv(Next(u, a))
  {
    hide ChunksInv, Flatten, Backlog;
    OtherChunks(u, a);
    match a
    case WriteDone =>
    case WriteFails(k) =>
    case Account =>
    case _ =>
  }

  lemma InvStep(u: Upload, a: Action)
    requires Inv(u) && Enabled(u, a)
    ensures Inv(Next(u, a))
  {
    match a
    case AdmitBody(_) => AdmitStep(u, a);
    case AdmitEnd => AdmitStep(u, a);
    case Take => TakeStep(u);
    case _ => OtherStep(u, a);
  }

  /** What the forwarder's steps leave alone, and the credit they return. */
  lemma ForwarderEffect(u: Upload, a: Action)
    requires Enabled(u, a) && !a.OpenWindow? && !a.AdmitBody? && !a.AdmitEnd? && !a.Push?
    ensures Next(u, a).feeder == u.feeder
    ensures Next(u, a).returned == u.returned + if a.ReturnCredit? then u.forwarder.n else 0
    ensures Next(u, a).frames == u.frames + if a.ReturnCredit? then 1 else 0
  {
  }

  /** The credit returned for a chunk fits the frame it is sent in. */
  lemma CreditFits(u: Upload)
    requires Inv(u) && u.forwarder.Crediting?
    ensures u.forwarder.n <= CHUNK
  {
  }

  // ---- every run -----------------------------------------------------------------------------

  /** The state after a list of attempted steps; one whose guard is false does nothing. */
  function Run(steps: seq<Action>): Upload {
    if steps == [] then NEW
    else
      var u := Run(steps[..|steps| - 1]);
      var a := steps[|steps| - 1];
      if Enabled(u, a) then Next(u, a) else u
  }

  lemma {:induction false} RunInv(steps: seq<Action>)
    ensures Inv(Run(steps))
  {
    if steps != [] {
      RunInv(steps[..|steps| - 1]);
      var u := Run(steps[..|steps| - 1]);
      if Enabled(u, steps[|steps| - 1]) {
        InvStep(u, steps[|steps| - 1]);
      }
    }
  }

  /**
   * Conservation. While the forwarder runs, the window is split without loss between what may still
   * be sent, what waits in the channel and what is being written; and the credit the peer holds or is
   * about to receive is exactly the part that may still be sent.
   */
  lemma Conservation(steps: seq<Action>)
    ensures var u := Run(steps);
      && 0 <= u.uploaded <= WINDOW
      && (!u.forwarder.Stopped? ==>
            && u.uploaded + Queued(u) + InHand(u) == WINDOW
            && u.returned - |Accepted(u)| + Owed(u) + Queued(u) + InHand(u) == WINDOW)
  {
    RunInv(steps);
  }

  /**
   * Upstream receives the accepted octets in order and without gaps; all of them once the forwarder
   * has met the end mark, and before that all but the ones still counted against the window.
   */
  lemma InOrder(steps: seq<Action>)
    ensures var u := Run(steps);
      && u.forwarded <= Accepted(u)
      && (u.forwarder == Stopped(true) ==> u.forwarded == Accepted(u))
      && (u.forwarder.Waiting? ==> u.forwarded + Flatten(Backlog(u)) == Accepted(u))
      && (u.forwarder.Writing? ==> u.forwarded + u.forwarder.chunk + Flatten(Backlog(u)) == Accepted(u))
  {
    RunInv(steps);
    var u := Run(steps);
    FlattenConcat(u.taken, Backlog(u));
  }

  /** A peer that never sends more than the credit frames it has been sent is never out of window. */
  lemma GrantedCreditSuffices(steps: seq<Action>, data: seq<Byte>)
    requires |Accepted(Run(steps))| + |data| <= Run(steps).returned
    ensures |data| <= Run(steps).uploaded
  {
    RunInv(steps);
  }

  // ---- the forwarder gets on -----------------------------------------------------------------

  lemma RunOneMore(steps: seq<Action>, a: Action)
    requires Enabled(Run(steps), a)
    ensures Run(steps + [a]) == Next(Run(steps), a)
  {
    assert (steps + [a])[..|steps|] == steps;
  }

  /** The forwarder's steps for `n` chunks. */
  function Drain(n: nat): seq<Action> {
    if n == 0 then [] else Drain(n - 1) + [Take] + [WriteDone] + [Account] + [ReturnCredit]
  }

  lemma DrainOne(steps: seq<Action>)
    requires var u := Run(steps); u.forwarder.Waiting? && u.queue != [] && u.queue[0] != []
    ensures var u := Run(steps); var chunk := u.queue[0];
      Run(steps + [Take] + [WriteDone] + [Account] + [ReturnCredit]) ==
        u.(queue := u.queue[1..], taken := u.taken + [chunk], forwarded := u.forwarded + chunk,
           uploaded := u.uploaded + |chunk|, returned := u.returned + |chunk|, frames := u.frames + 1)
  {
    hide Run;
    RunOneMore(steps, Take);
    RunOneMore(steps + [Take], WriteDone);
    RunOneMore(steps + [Take] + [WriteDone], Account);
    RunOneMore(steps + [Take] + [WriteDone] + [Account], ReturnCredit);
  }

  /** After the first `n` waiting chunks were passed on. */
  function Drained(u: Upload, n: nat): Upload
    requires n <= |u.queue|
  {
    var octets := Flatten(u.queue[..n]);
    u.(queue := u.queue[n..], taken := u.taken + u.queue[..n], forwarded := u.forwarded + octets,
       uploaded := u.uploaded + |octets|, returned := u.returned + |octets|, frames := u.frames + n)
  }

  lemma DrainedNone(u: Upload)
    ensures Drained(u, 0) == u
  {
    assert u.queue[0..] == u.queue && u.queue[..0] == [];
    FlattenNothing();
    hide Flatten;
    assert u.taken + [] == u.taken && u.forwarded + [] == u.forwarded;
  }

  lemma DrainedMore(u: Upload, n: nat)
    requires n < |u.queue|
    ensures var v, chunk := Drained(u, n), u.queue[n];
      && v.queue != [] && v.queue[0] == chunk && v.forwarder == u.forwarder
      && Drained(u, n + 1) ==
           v.(queue := v.queue[1..], taken := v.taken + [chunk], forwarded := v.forwarded + chunk,
              uploaded := v.uploaded + |chunk|, returned := v.returned + |chunk|, frames := v.frames + 1)
  {
    hide Flatten;
    var chunk := u.queue[n];
    assert u.queue[..n + 1] == u.queue[..n] + [chunk] && u.queue[n..][1..] == u.queue[n + 1..];
    FlattenAppend(u.queue[..n], chunk);
    assert u.taken + (u.queue[..n] + [chunk]) == u.taken + u.queue[..n] + [chunk];
    assert u.forwarded + (Flatten(u.queue[..n]) + chunk) == u.forwarded + Flatten(u.queue[..n]) + chunk;
  }

  /**
   * Whatever came before, the forwarder can pass on the first `n` chunks that wait, one by one: upstream gets
   * their octets, and the window and the peer get as many back, in one credit frame for each chunk.
   */
  lemma Drains(steps: seq<Action>, n: nat)
    requires var u := Run(steps); u.forwarder.Waiting? && n <= |u.queue| && [] !in u.queue[..n]
    ensures var u := Run(steps); var octets := Flatten(u.queue[..n]);
      Run(steps + Drain(n)) ==
        u.(queue := u.queue[n..], taken := u.taken + u.queue[..n], forwarded := u.forwarded + octets,
           uploaded := u.uploaded + |octets|, returned := u.returned + |octets|, frames := u.frames + n)
  {
    DrainsTo(steps, n);
  }

  lemma NoMarkBefore(queue: seq<seq<Byte>>, n: nat)
    requires 0 < n <= |queue| && [] !in queue[..n]
    ensures [] !in queue[..n - 1] && queue[n - 1] != []
  {
    assert queue[..n] == queue[..n - 1] + [queue[n - 1]];
  }

  lemma {:induction false} DrainsTo(steps: seq<Action>, n: nat)
    requires var u := Run(steps); u.forwarder.Waiting? && n <= |u.queue| && [] !in u.queue[..n]
    ensures Run(steps + Drain(n)) == Drained(Run(steps), n)
  {
    hide Run, Drained;
    var u := Run(steps);
    if n == 0 {
      assert steps + Drain(0) == steps;
      DrainedNone(u);
    } else {
      NoMarkBefore(u.queue, n);
      DrainsTo(steps, n - 1);
      DrainedMore(u, n - 1);
      DrainOne(steps + Drain(n - 1));
      assert steps + Drain(n) == steps + Drain(n - 1) + [Take] + [WriteDone] + [Account] + [ReturnCredit];
    }
  }

  /**
   * So an upload that has not ended, with its forwarder waiting and its feeder idle, can always get to where
   * upstream has all octets and the peer the whole window.
   */
  lemma DrainsAll(steps: seq<Action>)
    requires var u := Run(steps); u.forwarder.Waiting? && u.feeder.Idle? && !u.ended
    ensures var u, v := Run(steps), Run(steps + Drain(|Run(steps).queue|));
      && v.queue == [] && v.forwarder.Waiting? && v.admitted == u.admitted
      && v.forwarded == Accepted(u) && v.uploaded == WINDOW && v.returned == |Accepted(u)| + WINDOW
  {
    var u := Run(steps);
    RunInv(steps);
    InOrder(steps);
    Conservation(steps);
    NoMark(u);
    assert Backlog(u) == u.queue && u.queue[..|u.queue|] == u.queue;
    Drains(steps, |u.queue|);
  }

  lemma NoMark(u: Upload)
    requires ChunksInv(u) && u.feeder.Idle? && !u.ended
    ensures [] !in u.queue
  {
    assert u.admitted == u.taken + u.queue;
    forall i | 0 <= i < |u.queue|
      ensures u.queue[i] != []
    {
      assert u.queue[i] == u.admitted[|u.taken| + i];
    }
  }

  /** The end mark ends it, when it is the next in the channel. */
  lemma EndMarkEnds(steps: seq<Action>)
    requires var u := Run(steps); u.forwarder.Waiting? && u.queue != [] && u.queue[0] == []
    ensures Run(steps + [Take]).forwarder == Stopped(true) && Run(steps + [Take]).forwarded == Accepted(Run(steps))
  {
    RunOneMore(steps, Take);
    InOrder(steps + [Take]);
  }

  /** A write that fails after `k` octets has passed on exactly those, and the forwarder stops for good. */
  lemma {:induction false} FailsAfter(steps: seq<Action>, k: nat, more: seq<Action>)
    requires Enabled(Run(steps), WriteFails(k))
    ensures var u, v := Run(steps), Run(steps + [WriteFails(k)] + more);
      v.forwarder == Stopped(false) && v.forwarded == u.forwarded + u.forwarder.chunk[..k] && v.taken == u.taken
  {
    var first := steps + [WriteFails(k)];
    if more == [] {
      RunOneMore(steps, WriteFails(k));
      assert first + more == first;
    } else {
      FailsAfter(steps, k, more[..|more| - 1]);
      assert (first + more)[..|first + more| - 1] == first + more[..|more| - 1];
    }
  }

  // ---- the channel ---------------------------------------------------------------------------

  /** Every chunk but the last one before the end mark fills a frame. */
  ghost predicate FullChunks(chunks: seq<seq<Byte>>) {
    forall i | 0 <= i < |chunks| - 1 && chunks[i + 1] != [] :: |chunks[i]| == CHUNK
  }

  lemma FiveFullChunks(chunks: seq<seq<Byte>>)
    requires |chunks| >= 5 && forall i | 0 <= i < 4 :: |chunks[i]| == CHUNK
    requires chunks[4] != []
    ensures |Flatten(chunks)| > WINDOW
  {
    var prefix := chunks[..5];
    FlattenConcat(prefix, chunks[5..]);
    assert prefix + chunks[5..] == chunks;
    FlattenFirst(prefix);
    FlattenFirst(prefix[1..]);
    FlattenFirst(prefix[1..][1..]);
    FlattenFirst(prefix[1..][1..][1..]);
    FlattenFirst(prefix[1..][1..][1..][1..]);
  }

  /** The end of a list of full chunks, six long, holds more than a window. */
  lemma SixChunks(admitted: seq<seq<Byte>>, p: nat)
    requires FullChunks(admitted) && p + 6 <= |admitted|
    requires forall i | 0 <= i < |admitted| - 1 :: admitted[i] != []
    ensures |Flatten(admitted[p..])| > WINDOW
  {
    forall i | 0 <= i < 4
      ensures |admitted[p..][i]| == CHUNK
    {
      assert admitted[p + i + 1] != [];
    }
    FiveFullChunks(admitted[p..]);
  }

  lemma FullChunksRoom(u: Upload)
    requires Inv(u) && FullChunks(u.admitted) && u.feeder.Pushing?
    ensures Enabled(u, Push)
  {
    hide Flatten, FullChunks, OrderInv, CreditInv;
    if |u.queue| >= SLOTS {
      assert u.admitted[|u.taken|..] == Backlog(u);
      SixChunks(u.admitted, |u.taken|);
    }
  }

  /** A peer that fills its frames finds room in the channel every time, the end mark included. */
  lemma FullChunksFit(steps: seq<Action>)
    requires FullChunks(Run(steps).admitted) && Run(steps).feeder.Pushing?
    ensures Enabled(Run(steps), Push)
  {
    RunInv(steps);
    FullChunksRoom(Run(steps));
  }

  /** After `n` one-octet chunks that the forwarder has not looked at yet. */
  function Crammed(x: Byte, n: nat): (u: Upload) {
    var chunks := seq(n, _ => [x]);
    Upload(WINDOW - n, false, chunks, Idle, Waiting, chunks, [], [], WINDOW, 1)
  }

  function Cram(x: Byte, n: nat): seq<Action> {
    if n == 0 then [OpenWindow] else Cram(x, n - 1) + [AdmitBody([x]), Push]
  }

  lemma {:induction false} CramRuns(x: Byte, n: nat)
    requires n <= SLOTS
    ensures Run(Cram(x, n)) == Crammed(x, n)
  {
    var s := Cram(x, n);
    if n == 0 {
      assert s[..0] == [];
    } else {
      CramRuns(x, n - 1);
      assert s[..|s| - 1] == Cram(x, n - 1) + [AdmitBody([x])];
      assert s[..|s| - 1][..|s| - 2] == Cram(x, n - 1);
      assert seq(n - 1, _ => [x]) + [[x]] == seq(n, _ => [x]);
    }
  }

  /** What a peer can count: the chunks it sent, this one included, without those a credit frame has answered. */
  function Unanswered(u: Upload): int {
    |u.admitted| - Answered(u)
  }

  /** Credit alone is not enough: the sixth one-octet chunk, well within credit, finds the channel full. */
  lemma SmallChunksOverflow(x: Byte)
    ensures var u := Run(Cram(x, SLOTS) + [AdmitBody([x])]);
      u.feeder.Pushing? && !Enabled(u, Push) && |Accepted(u)| == 6 <= u.returned && Unanswered(u) == 6
  {
    var s := Cram(x, SLOTS) + [AdmitBody([x])];
    assert s[..|s| - 1] == Cram(x, SLOTS);
    CramRuns(x, SLOTS);
    RunInv(Cram(x, SLOTS));
    FlattenAppend(Crammed(x, SLOTS).admitted, [x]);
  }

  lemma UnansweredRoom(u: Upload)
    requires Inv(u) && u.feeder.Pushing?
    ensures Unanswered(u) <= 5 ==> Enabled(u, Push)
    ensures Unanswered(u) >= 7 ==> !Enabled(u, Push)
    ensures Unanswered(u) == 6 ==> (Enabled(u, Push) <==> |u.taken| > Answered(u))
  {
    hide OrderInv, WindowInv, CreditInv;
  }

  /**
   * The exact rule, in what the peer can count. With at most five chunks unanswered no chunk is ever
   * refused, whatever their size; with seven it always is; and with six it depends on whether the
   * forwarder has taken one of them out of the channel already.
   */
  lemma FiveUnansweredFit(steps: seq<Action>)
    requires Run(steps).feeder.Pushing?
    ensures var u := Run(steps);
      && (Unanswered(u) <= 5 ==> Enabled(u, Push))
      && (Unanswered(u) >= 7 ==> !Enabled(u, Push))
      && (Unanswered(u) == 6 ==> (Enabled(u, Push) <==> |u.taken| > Answered(u)))
  {
    RunInv(steps);
    UnansweredRoom(Run(steps));
  }

  /** The other way six can go: the forwarder has taken the first chunk, and the sixth fits. */
  lemma SixMayFit(x: Byte)
    ensures var u := Run(Cram(x, SLOTS) + [Take, AdmitBody([x])]);
      u.feeder.Pushing? && Enabled(u, Push) && Unanswered(u) == 6
  {
    var s := Cram(x, SLOTS) + [Take, AdmitBody([x])];
    assert s[..|s| - 1] == Cram(x, SLOTS) + [Take];
    assert s[..|s| - 1][..|s| - 2] == Cram(x, SLOTS);
    CramRuns(x, SLOTS);
  }
}
