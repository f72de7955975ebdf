/**
 * Captured process output: the size-capped log of one execution (internal/history/owned.go) and the
 * coalesced announcements of its growth (internal/core/plugin_processes.go).
 */
module CapturedOutput {
  import opened Bytes
  import opened Options
  import opened Subsequences

  const MAX_LOG: int := 0x100_0000
  const NOTIFY_INTERVAL: int := 250

  const MARKER_TEXT: string := "\n[output truncated: execution log limit reached]\n"

  const MARKER: seq<Byte> := Ascii(MARKER_TEXT)

  // ---- the log -------------------------------------------------------------------------------

  datatype Log = Log(file: seq<Byte>, size: int, truncated: bool, closed: bool)

  /** OpenExecutionLog on a file with some content already in it. */
  function Opened(content: seq<Byte>): Log {
    Log(content, |content|, false, false)
  }

  function Room(l: Log): nat {
    if MAX_LOG - l.size < 0 then 0 else MAX_LOG - l.size
  }

  /** Write, when the file takes what it is given. */
  function Written(l: Log, p: seq<Byte>): Log {
    if l.closed then l
    else
      var data := if |p| > Room(l) then p[..Room(l)] else p;
      var marker := if |data| < |p| && !l.truncated then MARKER else [];
      l.(file := l.file + data + marker, size := l.size + |data| + |marker|,
         truncated := l.truncated || |data| < |p|)
  }

  function WriteAll(l: Log, chunks: seq<seq<Byte>>): Log {
    if chunks == [] then l else Written(WriteAll(l, chunks[..|chunks| - 1]), chunks[|chunks| - 1])
  }

  /** What the log should be: the first octets up to the cap, and one marker if there were more. */
  function Capped(content: seq<Byte>, output: seq<Byte>): Log {
    var room := Room(Opened(content));
    if |output| <= room then Log(content + output, |content| + |output|, false, false)
    else Log(content + output[..room] + MARKER, |content| + room + |MARKER|, true, false)
  }

  lemma CappedGrows(content: seq<Byte>, output: seq<Byte>, p: seq<Byte>)
    ensures Written(Capped(content, output), p) == Capped(content, output + p)
  {
    var room := Room(Opened(content));
    var l := Capped(content, output);
    if |output| <= room {
      assert Room(l) == room - |output|;
      if |p| > Room(l) {
        assert (output + p)[..room] == output + p[..Room(l)];
        assert l.file + p[..Room(l)] + MARKER == content + (output + p[..Room(l)]) + MARKER;
      } else {
        assert l.file + p + [] == content + (output + p);
      }
    } else {
      assert Room(l) == 0;
      assert (output + p)[..room] == output[..room];
      assert l.file + p[..0] + [] == l.file;
      assert p == [] ==> l.file + p + [] == l.file;
    }
  }

  /**
   * However the output is cut into writes, and whatever was in the file before, the log is that content,
   * the first of the output up to the cap, and exactly one marker if and only if more arrived.
   */
  lemma {:induction false} LogIsCapped(content: seq<Byte>, chunks: seq<seq<Byte>>)
    ensures WriteAll(Opened(content), chunks) == Capped(content, Flatten(chunks))
    ensures WriteAll(Opened(content), chunks).size == |WriteAll(Opened(content), chunks).file|
  {
    if chunks == [] {
      assert content + [] == content;
    } else {
      LogIsCapped(content, chunks[..|chunks| - 1]);
      CappedGrows(content, Flatten(chunks[..|chunks| - 1]), chunks[|chunks| - 1]);
    }
  }

  // ---- the notifier --------------------------------------------------------------------------

  /** `last` is the time of the last direct or flushed announcement. `published` is history. */
  datatype Notifier = Notifier(
    last: Option<int>, timer: bool, size: int, pending: bool, stopped: bool, published: seq<int>)

  const QUIET: Notifier := Notifier(None, false, 0, false, false, [])

  function Notify(n: Notifier, size: int, now: int): Notifier {
    if n.stopped then n
    else if n.last.None? || now - n.last.value >= NOTIFY_INTERVAL then
      n.(size := size, last := Some(now), pending := false, published := n.published + [size])
    else n.(size := size, pending := true, timer := true)
  }

  /** The timer's function. A timer that was armed before a direct announcement finds nothing pending. */
  function Flush(n: Notifier, now: int): Notifier {
    var n' := n.(timer := false);
    if n.stopped || !n.pending then n'
    else n'.(last := Some(now), pending := false, published := n.published + [n.size])
  }

  function Stop(n: Notifier): Notifier {
    if n.stopped then n
    else n.(stopped := true, published := if n.pending then n.published + [n.size] else n.published)
  }

  // ---- one capture ---------------------------------------------------------------------------

  datatype Step = Write(p: seq<Byte>) | Announce(now: int) | Fire(now: int)

  /**
   * `owed` is the size that the one copying goroutine has to announce for the write it just made. History:
   * `told` is the size it announced last, `chunks` are its writes.
   */
  datatype Capture = Capture(
    log: Log, notifier: Notifier, owed: Option<int>, told: Option<int>, chunks: seq<seq<Byte>>)

  /** A write and its announcement are two steps, with the log's lock released in between; timers fire at any time. */
  function Next(c: Capture, step: Step): Capture {
    match step
    case Write(p) =>
      if c.owed.Some? then c
      else
        var log := Written(c.log, p);
        c.(log := log, owed := if c.log.closed then None else Some(log.size), chunks := c.chunks + [p])
    case Announce(now) =>
      if c.owed.None? then c
      else c.(notifier := Notify(c.notifier, c.owed.value, now), told := c.owed, owed := None)
    case Fire(now) => c.(notifier := Flush(c.notifier, now))
  }

  function Begin(content: seq<Byte>): Capture {
    Capture(Opened(content), QUIET, None, None, [])
  }

  function Run(content: seq<Byte>, steps: seq<Step>): Capture {
    if steps == [] then Begin(content)
    else Next(Run(content, steps[..|steps| - 1]), steps[|steps| - 1])
  }

  /** The waiter's close and stop, after the process is gone. */
  function Finish(c: Capture): Capture {
    c.(log := c.log.(closed := true), notifier := Stop(c.notifier))
  }

  function LastOf(s: seq<int>): Option<int> {
    if s == [] then None else Some(s[|s| - 1])
  }

  /** No announcement is lost: the size announced last is published, or pending behind an armed timer. */
  ghost predicate Inv(c: Capture) {
    && !c.log.closed && !c.notifier.stopped
    && (if c.notifier.pending then c.notifier.timer && c.told == Some(c.notifier.size)
        else LastOf(c.notifier.published) == c.told)
    && (c.owed.Some? ==> c.owed.value == c.log.size && c.chunks != [] && (|c.chunks| == 1 <==> c.told == None))
    && (c.owed.None? ==> if c.chunks == [] then c.told == None else c.told == Some(c.log.size))
  }

  /** The log before the last write. */
  function Before(content: seq<Byte>, c: Capture): Log
    requires c.chunks != []
  {
    WriteAll(Opened(content), c.chunks[..|c.chunks| - 1])
  }

  ghost predicate LogInv(content: seq<Byte>, c: Capture) {
    && c.log == WriteAll(Opened(content), c.chunks)
    && (c.owed.Some? && |c.chunks| > 1 ==> c.told == Some(Before(content, c).size))
  }

  lemma WriteKeepsInv(content: seq<Byte>, c: Capture, p: seq<Byte>)
    requires Inv(c) && LogInv(content, c)
    ensures Inv(Next(c, Write(p))) && LogInv(content, Next(c, Write(p)))
  {
    assert !Written(c.log, p).closed;
    hide Written;
    assert (c.chunks + [p])[..|c.chunks|] == c.chunks;
  }

  lemma NotifierKeepsInv(content: seq<Byte>, c: Capture, step: Step)
    requires Inv(c) && LogInv(content, c) && !step.Write?
    ensures Inv(Next(c, step)) && LogInv(content, Next(c, step))
  {
    hide LogInv;
    assert Next(c, step).log == c.log && Next(c, step).chunks == c.chunks;
    NotifierKeepsLog(content, c, Next(c, step));
  }

  lemma NotifierKeepsLog(content: seq<Byte>, c: Capture, d: Capture)
    requires LogInv(content, c) && d.log == c.log && d.chunks == c.chunks
    requires d.owed.None? || (d.owed == c.owed && d.told == c.told)
    ensures LogInv(content, d)
  {
  }

  lemma {:induction false} RunInv(content: seq<Byte>, steps: seq<Step>)
    ensures Inv(Run(content, steps)) && LogInv(content, Run(content, steps))
  {
    if steps != [] {
      var before, last := steps[..|steps| - 1], steps[|steps| - 1];
      RunInv(content, before);
      hide Inv, LogInv, Next;
      match last
      case Write(p) => WriteKeepsInv(content, Run(content, before), p);
      case _ => NotifierKeepsInv(content, Run(content, before), last);
    }
  }

  /**
   * A finished capture, for all writes and all firings of timers in any order. The file is the capped
   * output. The size published last is the one announced last; so if the copying goroutine was done, which
   * is so whenever the wait did not give up on it, it is the size of the file.
   */
  lemma CaptureAnnounced(content: seq<Byte>, steps: seq<Step>)
    ensures var run := Run(content, steps); var c := Finish(run);
      && c.log.file == Capped(content, Flatten(run.chunks)).file
      && LastOf(c.notifier.published) == run.told
      && (run.owed.None? && run.chunks != [] ==> LastOf(c.notifier.published) == Some(|c.log.file|))
      && (run.chunks == [] ==> c.notifier.published == [])
  {
    RunInv(content, steps);
    LogIsCapped(content, Run(content, steps).chunks);
    hide WriteAll, Capped, Written;
  }

  /** A write leaves the size alone exactly if it is empty, or finds the log marked and without room. */
  lemma SizeUnchangedIff(l: Log, p: seq<Byte>)
    requires !l.closed
    ensures Written(l, p).size == l.size <==> p == [] || (l.truncated && Room(l) == 0)
  {
    assert |MARKER| > 0;
  }

  /**
   * The wait gives up on the copying goroutine when a grandchild holds the pipe. A write that was not
   * announced by then never is, since the notifier is stopped. So the size published last is the size of
   * the file exactly if something was announced before, and this write was empty or came after the log was
   * full and marked.
   */
  lemma AbandonedWriteIsNotAnnounced(content: seq<Byte>, steps: seq<Step>, now: int)
    requires Run(content, steps).owed.Some?
    ensures var run := Run(content, steps); var late := Next(Finish(run), Announce(now)); var n := |run.chunks| - 1;
      && n >= 0
      && (LastOf(late.notifier.published) == Some(|late.log.file|) <==>
            var log := Before(content, run);
            n > 0 && (run.chunks[n] == [] || (log.truncated && Room(log) == 0)))
  {
    CaptureAnnounced(content, steps);
    RunInv(content, steps);
    var run := Run(content, steps);
    LogIsCapped(content, run.chunks);
    StaysOpen(content, run.chunks[..|run.chunks| - 1]);
    SizeUnchangedIff(Before(content, run), run.chunks[|run.chunks| - 1]);
    assert run.log == Written(Before(content, run), run.chunks[|run.chunks| - 1]);
    hide Run, Capped, Written, WriteAll, Flatten, Room;
  }

  lemma {:induction false} StaysOpen(content: seq<Byte>, chunks: seq<seq<Byte>>)
    ensures !WriteAll(Opened(content), chunks).closed
  {
    if chunks != [] {
      StaysOpen(content, chunks[..|chunks| - 1]);
    }
  }

  /** It does happen. */
  lemma AbandonedExample(x: Byte)
    ensures var c := Finish(Run([], [Write([x])]));
      |c.log.file| == 1 && c.notifier.published == []
  {
    var steps := [Write([x])];
    assert steps[..0] == [];
    assert Run([], []) == Begin([]);
  }

  /** While it runs, the size shown is behind the one announced only as long as a timer is armed. */
  lemma BehindOnlyWithTimer(content: seq<Byte>, steps: seq<Step>)
    ensures var c := Run(content, steps);
      LastOf(c.notifier.published) == c.told || (c.notifier.pending && c.notifier.timer)
  {
    RunInv(content, steps);
  }

  // ---- what is published ---------------------------------------------------------------------

  /** The sizes of the log after each of some writes. */
  function Sizes(content: seq<Byte>, chunks: seq<seq<Byte>>): seq<int> {
    if chunks == [] then []
    else Sizes(content, chunks[..|chunks| - 1]) + [WriteAll(Opened(content), chunks).size]
  }

  /** The writes that were announced. */
  function Announced(c: Capture): seq<seq<Byte>> {
    if c.owed.Some? && c.chunks != [] then c.chunks[..|c.chunks| - 1] else c.chunks
  }

  ghost predicate OrderInv(content: seq<Byte>, c: Capture) {
    Sub(c.notifier.published + (if c.notifier.pending then [c.notifier.size] else []), Sizes(content, Announced(c)))
  }

  lemma SubDropLast(a: seq<int>, x: int, b: seq<int>)
    requires Sub(a + [x], b)
    ensures Sub(a, b)
    decreases |b|
  {
    assert (a + [x])[..|a|] == a;
    var b' := b[..|b| - 1];
    if !Sub(a + [x], b') {
      SubSkip(a, b', b[|b| - 1]);
      assert b' + [b[|b| - 1]] == b;
    } else {
      SubDropLast(a, x, b');
      SubSkip(a, b', b[|b| - 1]);
      assert b' + [b[|b| - 1]] == b;
    }
  }

  lemma AnnounceKeepsOrder(content: seq<Byte>, c: Capture, now: int)
    requires Inv(c) && LogInv(content, c) && OrderInv(content, c) && c.owed.Some?
    ensures OrderInv(content, Next(c, Announce(now)))
  {
    var published, told := c.notifier.published, Sizes(content, Announced(c));
    var d := Next(c, Announce(now));
    assert Sizes(content, Announced(d)) == told + [c.owed.value] by { hide Sub; }
    if c.notifier.pending {
      SubDropLast(published, c.notifier.size, told);
    } else {
      assert published + [] == published;
    }
    hide Sizes, Announced, WriteAll;
    SubKeep(published, told, c.owed.value);
    assert published + [c.owed.value] + [] == published + [c.owed.value];
  }

  lemma OthersKeepOrder(content: seq<Byte>, c: Capture, step: Step)
    requires Inv(c) && OrderInv(content, c) && !step.Announce?
    ensures OrderInv(content, Next(c, step))
  {
    hide Sub, WriteAll, Written;
    var d := Next(c, step);
    assert Announced(d) == Announced(c);
    hide Sizes, Announced;
    assert c.notifier.published + [c.notifier.size] + [] == c.notifier.published + [c.notifier.size];
  }

  lemma {:induction false} RunOrder(content: seq<Byte>, steps: seq<Step>)
    ensures OrderInv(content, Run(content, steps))
  {
    if steps != [] {
      var before, last := Run(content, steps[..|steps| - 1]), steps[|steps| - 1];
      RunOrder(content, steps[..|steps| - 1]);
      RunInv(content, steps[..|steps| - 1]);
      hide Inv, LogInv, OrderInv;
      if last.Announce? && before.owed.Some? {
        AnnounceKeepsOrder(content, before, last.now);
      } else if !last.Announce? {
        OthersKeepOrder(content, before, last);
      }
    }
  }

  /**
   * What is published are sizes the log had after writes, in the order of the writes and each announced one
   * at most once: nothing is made up, repeated or told out of order.
   */
  lemma PublishedInOrder(content: seq<Byte>, steps: seq<Step>)
    ensures var c := Run(content, steps); Sub(c.notifier.published, Sizes(content, Announced(c)))
  {
    RunOrder(content, steps);
    var c := Run(content, steps);
    if c.notifier.pending {
      SubDropLast(c.notifier.published, c.notifier.size, Sizes(content, Announced(c)));
    } else {
      assert c.notifier.published + [] == c.notifier.published;
    }
  }

  /**
   * Exactly when. An announcement is published at once if it is the first or 250 ms have passed since the
   * last time; otherwise it waits behind a timer. When a timer fires, what waits is published, and then
   * nothing is behind.
   */
  lemma PublishedWhen(content: seq<Byte>, steps: seq<Step>, now: int)
    ensures var c := Run(content, steps); var n := c.notifier;
      && (c.owed.Some? ==>
            var m := Run(content, steps + [Announce(now)]).notifier;
            if n.last.None? || n.last.value + 250 <= now
            then m.published == n.published + [c.log.size] && !m.pending && m.last == Some(now)
            else m.published == n.published && m.pending && m.timer && m.size == c.log.size && m.last == n.last)
      && var f := Run(content, steps + [Fire(now)]);
         && f.notifier.published == n.published + (if n.pending then [n.size] else [])
         && LastOf(f.notifier.published) == f.told == c.told && !f.notifier.pending && !f.notifier.timer
         && f.notifier.last == if n.pending then Some(now) else n.last
  {
    RunInv(content, steps);
    assert (steps + [Announce(now)])[..|steps|] == steps && (steps + [Fire(now)])[..|steps|] == steps;
    hide Written, LogInv;
  }

  // ---- the objects ---------------------------------------------------------------------------

  class ExecutionLog {
    var file: seq<Byte>
    var size: int
    var truncated: bool
    var closed: bool

    ghost function View(): Log
      reads this
    {
      Log(file, size, truncated, closed)
    }

    constructor (content: seq<Byte>)
      ensures View() == Opened(content)
    {
      file, size, truncated, closed := content, |content|, false, false;
    }

    /** The file takes all of the data, or with a fault only some and reports an error. */
    method Append(data: seq<Byte>, fault: Option<nat>) returns (n: nat, ok: bool)
      modifies this`file
      ensures ok <==> fault.None?
      ensures n <= |data| && (ok ==> n == |data|) && file == old(file) + data[..n]
    {
      match fault {
        case None => n := |data|;
        case Some(k) => n := if k < |data| then k else |data|;
      }
      ok := fault.None?;
      file := file + data[..n];
    }

    /** As much of the data as there is room for. */
    method Cut(p: seq<Byte>) returns (data: seq<Byte>)
      ensures data == if |p| > Room(View()) then p[..Room(View())] else p
    {
      var remaining := MAX_LOG - size;
      data := p;
      if |data| > remaining {
        if remaining < 0 {
          remaining := 0;
        }
        data := data[..remaining];
      }
    }

    /** The caller is always told that everything was written; the size to announce is returned. */
    method Write(p: seq<Byte>, fault: Option<nat>) returns (reported: nat, announce: Option<int>)
      modifies this
      ensures reported == |p|
      ensures fault.None? ==> View() == Written(old(View()), p)
      ensures fault.None? ==> announce == if old(closed) then None else Some(size)
      ensures old(size) == |old(file)| ==> size == |file|
      ensures old(file) <= file && closed == old(closed)
    {
      reported, announce := |p|, None;
      if closed {
        return;
      }
      var data := Cut(p);
      if |data| > 0 {
        var n, ok := Append(data, fault);
        size := size + n;
        if !ok {
          return;
        }
      }
      if |data| < |p| && !truncated {
        truncated := true;
        var n, _ := Append(MARKER, fault);
        size := size + n;
      }
      announce := Some(size);
    }

    method Close()
      modifies this`closed
      ensures View() == old(View()).(closed := true)
    {
      closed := true;
    }
  }

  class OutputNotifier {
    var last: Option<int>
    var timer: bool
    var size: int
    var pending: bool
    var stopped: bool
    var published: seq<int>

    ghost function View(): Notifier
      reads this
    {
      Notifier(last, timer, size, pending, stopped, published)
    }

    constructor ()
      ensures View() == QUIET
    {
      last, timer, size, pending, stopped, published := None, false, 0, false, false, [];
    }

    method OnWrite(newSize: int, now: int)
      modifies this
      ensures View() == Notify(old(View()), newSize, now)
    {
      if stopped {
        return;
      }
      size := newSize;
      if last.None? || NOTIFY_INTERVAL - (now - last.value) <= 0 {
        last, pending := Some(now), false;
        published := published + [size];
        return;
      }
      pending := true;
      if !timer {
        timer := true;
      }
    }

    method OnTimer(now: int)
      modifies this
      ensures View() == Flush(old(View()), now)
    {
      timer := false;
      if stopped || !pending {
        return;
      }
      last, pending := Some(now), false;
      published := published + [size];
    }

    method OnStop()
      modifies this
      ensures View() == Stop(old(View()))
    {
      if stopped {
        return;
      }
      stopped := true;
      if pending {
        published := published + [size];
      }
    }
  }
}
