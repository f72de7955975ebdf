/**
 * When a move of the data directory succeeds (internal/config/root.go), as a run of steps from the request
 * to the next start: which requests are queued, which moves complete, and what is where afterwards.
 */
module DataRootMoves {
  import opened Options
  import opened DataRoot

  function Repeat(e: Event, n: nat): seq<Event> {
    seq(n, _ => e)
  }

  function Copies(written: seq<seq<int>>): seq<Event> {
    seq(|written|, i requires 0 <= i < |written| => CopyNext(false, written[i]))
  }

  /** Carrying out a request to copy, with no fault. */
  function Move(order: seq<Rel>, written: seq<seq<int>>): seq<Event> {
    [Load(false, true), Begin(false, order)] + (Copies(written) + [CopyNext(false, [])])
    + (Repeat(FixNext(false), |order|) + [FixNext(false)])
    + (Repeat(VerifyNext(false), |order|) + [VerifyNext(false)])
    + [WriteTmp(false), Rename(false), Report]
  }

  lemma {:induction false} RunConcat(s: State, a: seq<Event>, b: seq<Event>)
    ensures Run(s, a + b) == Run(Run(s, a), b)
  {
    hide Next;
    if b == [] {
      assert a + b == a;
    } else {
      RunConcat(s, a, b[..|b| - 1]);
      assert (a + b)[..|a + b| - 1] == a + b[..|b| - 1];
    }
  }

  lemma RunOneMore(s: State, a: seq<Event>, e: Event)
    ensures Run(s, a + [e]) == Next(Run(s, a), e)
  {
    hide Next;
    assert (a + [e])[..|a|] == a;
  }

  lemma RunTwo(s: State, a: Event, b: Event)
    ensures Run(s, [a]) == Next(s, a) && Run(s, [a, b]) == Next(Next(s, a), b)
  {
    RunOneMore(s, [], a);
    RunOneMore(s, [a], b);
    assert [] + [a] == [a] && [a] + [b] == [a, b];
  }

  lemma RunThree(s: State, a: Event, b: Event, c: Event)
    ensures Run(s, [a, b, c]) == Next(Next(Next(s, a), b), c)
  {
    RunTwo(s, a, b);
    RunOneMore(s, [a, b], c);
    assert [a, b] + [c] == [a, b, c];
  }

  /** Only the destination and the phase differ. */
  ghost predicate OnlyDest(s: State, t: State, p: Pending) {
    p.dest in t.trees && t == s.(trees := s.trees[p.dest := t.trees[p.dest]], phase := t.phase)
  }

  // ---- the three loops -----------------------------------------------------------------------

  /** `t` has copied the first `n` entries. */
  ghost predicate HasCopied(s: State, t: State, p: Pending, walk: seq<Rel>, written: seq<seq<int>>, n: nat) {
    && OnlyDest(s, t, p) && t.phase == Copying(p, walk, n) && TreeAt(t, p.source) == TreeAt(s, p.source)
    && Copied(TreeAt(t, p.source), TreeAt(t, p.dest), walk, n)
    && Holds(TreeAt(t, p.source), TreeAt(t, p.dest), walk, written, n)
  }

  /** `t` has copied everything and closed the directories from number `k` on. */
  ghost predicate HasFixed(s: State, t: State, p: Pending, walk: seq<Rel>, written: seq<seq<int>>, k: nat) {
    && OnlyDest(s, t, p) && TreeAt(t, p.source) == TreeAt(s, p.source)
    && Fixed(TreeAt(t, p.source), TreeAt(t, p.dest), walk, k)
    && Holds(TreeAt(t, p.source), TreeAt(t, p.dest), walk, written, |walk|)
  }

  lemma HoldsOneMore(source: Tree, dest: Tree, walk: seq<Rel>, written: seq<seq<int>>, i: nat, node: Node)
    requires Walks(walk, source) && i < |walk| && Holds(source, dest, walk, written, i)
    requires source[walk[i]].File? ==> node.File? && node.content == written[i]
    ensures Holds(source, dest[walk[i] := node], walk, written, i + 1)
  {
    WalkFacts(walk, source, i);
    hide Walks;
  }

  lemma CopyOne(s: State, t: State, p: Pending, walk: seq<Rel>, written: seq<seq<int>>, i: nat)
    requires p.source != p.dest && i < |walk| == |written| && Plain(TreeAt(s, p.source))
    requires HasCopied(s, t, p, walk, written, i)
    ensures HasCopied(s, Next(t, CopyNext(false, written[i])), p, walk, written, i + 1)
  {
    var source, dest := TreeAt(t, p.source), TreeAt(t, p.dest);
    assert Walks(walk, source);
    WalkFacts(walk, source, i);
    var node := CopyOf(source[walk[i]], written[i]).value;
    CopyKeeps(source, dest, walk, i, node);
    HoldsOneMore(source, dest, walk, written, i, node);
    hide Copied, Walks, Holds, Plain;
    assert Next(t, CopyNext(false, written[i])) ==
      t.(trees := t.trees[p.dest := dest[walk[i] := node]], phase := Copying(p, walk, i + 1));
  }

  lemma {:induction false} CopyLoop(s: State, p: Pending, walk: seq<Rel>, written: seq<seq<int>>, n: nat)
    requires p.source != p.dest && n <= |walk| == |written| && Plain(TreeAt(s, p.source))
    requires HasCopied(s, s, p, walk, written, 0)
    ensures HasCopied(s, Run(s, Copies(written[..n])), p, walk, written, n)
  {
    hide HasCopied, Plain, Next, Copies, TreeAt;
    if n == 0 {
      CopiesNext(written, 0);
    } else {
      CopyLoop(s, p, walk, written, n - 1);
      CopiesNext(written, n - 1);
      RunOneMore(s, Copies(written[..n - 1]), CopyNext(false, written[n - 1]));
      CopyOne(s, Run(s, Copies(written[..n - 1])), p, walk, written, n - 1);
    }
  }

  lemma CopiesNext(written: seq<seq<int>>, n: nat)
    ensures Copies(written[..0]) == []
    ensures n < |written| ==> Copies(written[..n + 1]) == Copies(written[..n]) + [CopyNext(false, written[n])]
  {
  }

  /** Closing a directory changes no file. */
  lemma HoldsFixed(source: Tree, dest: Tree, walk: seq<Rel>, written: seq<seq<int>>, k: nat)
    requires Holds(source, dest, walk, written, |walk|) && k < |walk| && walk[k] in source
    ensures source[walk[k]].Dir? ==> Holds(source, dest[walk[k] := source[walk[k]]], walk, written, |walk|)
  {
  }

  lemma FixStep(t: State, p: Pending, walk: seq<Rel>, k: nat)
    requires 0 < k <= |walk| && t.phase == Fixing(p, walk, k) && walk[k - 1] in TreeAt(t, p.source)
    ensures Next(t, FixNext(false)) ==
      var node := TreeAt(t, p.source)[walk[k - 1]];
      if node.Dir?
      then t.(trees := t.trees[p.dest := TreeAt(t, p.dest)[walk[k - 1] := node]], phase := Fixing(p, walk, k - 1))
      else t.(phase := Fixing(p, walk, k - 1))
  {
  }

  lemma FixOne(s: State, t: State, p: Pending, walk: seq<Rel>, written: seq<seq<int>>, k: nat)
    requires p.source != p.dest && 0 < k <= |walk| && t.phase == Fixing(p, walk, k) && HasFixed(s, t, p, walk, written, k)
    ensures var u := Next(t, FixNext(false)); u.phase == Fixing(p, walk, k - 1) && HasFixed(s, u, p, walk, written, k - 1)
  {
    hide Fixed, Holds, Next;
    var source, dest := TreeAt(t, p.source), TreeAt(t, p.dest);
    FixedFacts(source, dest, walk, k);
    FixKeeps(source, dest, walk, k);
    HoldsFixed(source, dest, walk, written, k - 1);
    FixStep(t, p, walk, k);
  }

  lemma {:induction false} FixLoop(s: State, t: State, p: Pending, walk: seq<Rel>, written: seq<seq<int>>, n: nat)
    requires p.source != p.dest && n <= |walk| && t.phase == Fixing(p, walk, |walk|) && HasFixed(s, t, p, walk, written, |walk|)
    ensures var u := Run(t, Repeat(FixNext(false), n));
      u.phase == Fixing(p, walk, |walk| - n) && HasFixed(s, u, p, walk, written, |walk| - n)
  {
    hide HasFixed, Next, Repeat;
    if n == 0 {
      RepeatNext(FixNext(false), 0);
    } else {
      FixLoop(s, t, p, walk, written, n - 1);
      RepeatNext(FixNext(false), n - 1);
      RunOneMore(t, Repeat(FixNext(false), n - 1), FixNext(false));
      FixOne(s, Run(t, Repeat(FixNext(false), n - 1)), p, walk, written, |walk| - (n - 1));
    }
  }

  lemma RepeatNext(e: Event, n: nat)
    ensures Repeat(e, 0) == [] && Repeat(e, n + 1) == Repeat(e, n) + [e]
  {
  }

  ghost predicate AllVerified(s: State, p: Pending, walk: seq<Rel>, n: nat) {
    n <= |walk| && forall j :: 0 <= j < n ==> EntryVerified(TreeAt(s, p.source), TreeAt(s, p.dest), walk[j])
  }

  lemma VerifyOne(s: State, p: Pending, walk: seq<Rel>, j: nat)
    requires j < |walk|
    ensures Next(s.(phase := Undoing(p)), VerifyNext(false)) == s.(phase := Undoing(p))
    ensures Next(s.(phase := Verifying(p, walk, j)), VerifyNext(false)) ==
      if EntryVerified(TreeAt(s, p.source), TreeAt(s, p.dest), walk[j])
      then s.(phase := Verifying(p, walk, j + 1)) else s.(phase := Undoing(p))
  {
    hide EntryVerified;
  }

  lemma {:induction false} VerifyLoop(s: State, p: Pending, walk: seq<Rel>, n: nat)
    requires s.phase == Verifying(p, walk, 0) && n <= |walk|
    ensures Run(s, Repeat(VerifyNext(false), n)) ==
      if AllVerified(s, p, walk, n) then s.(phase := Verifying(p, walk, n)) else s.(phase := Undoing(p))
  {
    hide EntryVerified, Next, Repeat;
    if n == 0 {
      RepeatNext(VerifyNext(false), 0);
    } else {
      VerifyLoop(s, p, walk, n - 1);
      RepeatNext(VerifyNext(false), n - 1);
      RunOneMore(s, Repeat(VerifyNext(false), n - 1), VerifyNext(false));
      VerifyOne(s, p, walk, n - 1);
    }
  }

  // ---- one move ------------------------------------------------------------------------------

  /** A request whose destination is new and apart, and whose source is a tree of directories and files. */
  predicate Movable(s: State, p: Pending) {
    && s.phase == Loading && s.pending == Some(p) && !p.switchOnly && Active(s) == p.source
    && p.source in s.trees && Plain(s.trees[p.source]) && p.dest !in s.trees && Apart(p.source, p.dest)
  }

  lemma Loads(s: State, p: Pending, order: seq<Rel>)
    requires Movable(s, p) && Walks(order, s.trees[p.source])
    ensures Run(s, [Load(false, true), Begin(false, order)]) ==
      s.(trees := s.trees[p.dest := map[]], phase := Copying(p, order, 0))
  {
    hide Walks, Plain, Apart;
    RunTwo(s, Load(false, true), Begin(false, order));
  }

  lemma StartsEmpty(s: State, p: Pending, order: seq<Rel>, written: seq<seq<int>>)
    requires p.dest in s.trees && s.phase == Copying(p, order, 0) && |order| == |written|
    requires Walks(order, TreeAt(s, p.source)) && TreeAt(s, p.dest) == map[]
    ensures HasCopied(s, s, p, order, written, 0)
  {
    hide Walks;
    assert s.trees[p.dest := s.trees[p.dest]] == s.trees;
  }

  lemma ClosesNext(s: State, t: State, p: Pending, order: seq<Rel>, written: seq<seq<int>>)
    requires HasCopied(s, t, p, order, written, |order|)
    ensures var u := Next(t, CopyNext(false, []));
      u.phase == Fixing(p, order, |order|) && HasFixed(s, u, p, order, written, |order|)
  {
    CopyEnds(TreeAt(t, p.source), TreeAt(t, p.dest), order);
    hide Copied, Fixed, Walks;
  }

  /** The copy with its modes. */
  lemma CopiesAndFixes(s: State, p: Pending, order: seq<Rel>, written: seq<seq<int>>)
    requires p.source != p.dest && p.dest in s.trees && s.phase == Copying(p, order, 0) && |order| == |written|
    requires Plain(TreeAt(s, p.source)) && Walks(order, TreeAt(s, p.source)) && TreeAt(s, p.dest) == map[]
    ensures var t := Run(Run(s, Copies(written) + [CopyNext(false, [])]), Repeat(FixNext(false), |order|) + [FixNext(false)]);
      t.phase == Verifying(p, order, 0) && HasFixed(s, t, p, order, written, 0)
  {
    hide HasCopied, HasFixed, Plain, Walks, Copies, Repeat, Next, TreeAt;
    assert written[..|order|] == written;
    StartsEmpty(s, p, order, written);
    CopyLoop(s, p, order, written, |order|);
    var a := Run(s, Copies(written));
    RunOneMore(s, Copies(written), CopyNext(false, []));
    ClosesNext(s, a, p, order, written);
    var b := Next(a, CopyNext(false, []));
    FixLoop(s, b, p, order, written, |order|);
    RunOneMore(b, Repeat(FixNext(false), |order|), FixNext(false));
    FixesDone(s, Run(b, Repeat(FixNext(false), |order|)), p, order, written);
  }

  lemma FixesDone(s: State, t: State, p: Pending, order: seq<Rel>, written: seq<seq<int>>)
    requires t.phase == Fixing(p, order, 0) && HasFixed(s, t, p, order, written, 0)
    ensures var u := Next(t, FixNext(false)); u.phase == Verifying(p, order, 0) && HasFixed(s, u, p, order, written, 0)
  {
    hide Fixed, Holds;
  }

  /** Verification, told from the contents written. */
  lemma Verifies(s: State, t: State, p: Pending, order: seq<Rel>, written: seq<seq<int>>)
    requires HasFixed(s, t, p, order, written, 0) && t.phase == Verifying(p, order, 0)
    ensures Run(t, Repeat(VerifyNext(false), |order|) + [VerifyNext(false)]) ==
      if Faithful(TreeAt(s, p.source), order, written) then t.(phase := Writing(p, true)) else t.(phase := Undoing(p))
    ensures Faithful(TreeAt(s, p.source), order, written) ==> TreeAt(t, p.dest) == TreeAt(s, p.source)
  {
    hide Run, Repeat, EntryVerified, Fixed, Holds, Faithful;
    var source, dest := TreeAt(t, p.source), TreeAt(t, p.dest);
    VerifyLoop(t, p, order, |order|);
    VerifiesIff(source, dest, order, written);
    RunOneMore(t, Repeat(VerifyNext(false), |order|), VerifyNext(false));
    if Faithful(source, order, written) {
      VerifiedIsEqual(source, dest, order);
    }
  }

  /** The last three steps, one by one. */
  lemma LastSteps(s: State, p: Pending, created: bool)
    ensures Next(s.(phase := Writing(p, created)), WriteTmp(false)) == s.(phase := Renaming(p, created))
    ensures Next(s.(phase := Renaming(p, created)), Rename(false)) == Renamed(s, p)
    ensures Next(s.(phase := Reporting), Report) == s.(phase := Clearing)
  {
  }

  lemma Switches(s: State, p: Pending)
    requires s.phase == Writing(p, true) && !p.switchOnly
    ensures Run(s, [WriteTmp(false), Rename(false), Report]) == s.(phase := Clearing, locator := Some(p.dest))
  {
    hide Next, Run;
    RunThree(s, WriteTmp(false), Rename(false), Report);
    LastSteps(s, p, true);
    LastSteps(Renamed(s, p), p, true);
  }

  lemma StaysUndoing(s: State, p: Pending)
    requires s.phase == Undoing(p)
    ensures Run(s, [WriteTmp(false), Rename(false), Report]) == s
  {
    RunThree(s, WriteTmp(false), Rename(false), Report);
  }

  lemma RunMove(s: State, order: seq<Rel>, written: seq<seq<int>>)
    ensures Run(s, Move(order, written)) ==
      var a := Run(s, [Load(false, true), Begin(false, order)]);
      var b := Run(Run(a, Copies(written) + [CopyNext(false, [])]), Repeat(FixNext(false), |order|) + [FixNext(false)]);
      Run(Run(b, Repeat(VerifyNext(false), |order|) + [VerifyNext(false)]), [WriteTmp(false), Rename(false), Report])
  {
    hide Run, Copies, Repeat;
    var start := [Load(false, true), Begin(false, order)];
    var copy, fix := Copies(written) + [CopyNext(false, [])], Repeat(FixNext(false), |order|) + [FixNext(false)];
    var verify, last := Repeat(VerifyNext(false), |order|) + [VerifyNext(false)], [WriteTmp(false), Rename(false), Report];
    RunConcat(s, start, copy);
    RunConcat(s, start + copy, fix);
    RunConcat(s, start + copy + fix, verify);
    RunConcat(s, start + copy + fix + verify, last);
  }

  /**
   * A move without faults completes exactly if every file was written as it was read: then the locator is at
   * the destination, which is equal to the source, and nothing else has changed. Otherwise the locator is
   * where it was, and what was made is about to be removed.
   */
  lemma MoveCompletesIff(s: State, p: Pending, order: seq<Rel>, written: seq<seq<int>>)
    requires Movable(s, p) && Walks(order, s.trees[p.source]) && |written| == |order|
    ensures var t := Run(s, Move(order, written));
      if Faithful(s.trees[p.source], order, written)
      then t == s.(trees := s.trees[p.dest := s.trees[p.source]], locator := Some(p.dest), phase := Clearing)
      else t.phase == Undoing(p) && t.locator == s.locator
  {
    hide Walks, Apart, Plain, Faithful, Next, Run, Fixed, Holds, Move;
    Loads(s, p, order);
    ApartDiffer(p.source, p.dest);
    RunMove(s, order, written);
    var a := Run(s, [Load(false, true), Begin(false, order)]);
    CopiesAndFixes(a, p, order, written);
    var b := Run(Run(a, Copies(written) + [CopyNext(false, [])]), Repeat(FixNext(false), |order|) + [FixNext(false)]);
    Verifies(a, b, p, order, written);
    var c := Run(b, Repeat(VerifyNext(false), |order|) + [VerifyNext(false)]);
    if Faithful(s.trees[p.source], order, written) {
      Switches(c, p);
    } else {
      StaysUndoing(c, p);
    }
  }

  // ---- from the request to the next start ----------------------------------------------------

  /** Exactly which requests are queued; all others leave everything as it was. */
  lemma QueuedIff(s: State, dest: Path, switchOnly: bool)
    requires s.phase == Running
    ensures Run(s, [Queue(dest, switchOnly), QueueRename(false)]) ==
      if Apart(Active(s), dest) && (switchOnly || dest !in s.trees) && s.pending.None?
      then s.(pending := Some(Pending(Active(s), dest, switchOnly))) else s
  {
    hide Apart;
    RunTwo(s, Queue(dest, switchOnly), QueueRename(false));
  }

  /**
   * The whole way. A running program whose data is a plain tree is asked to move it to a new directory
   * apart from it and to restart: it comes back with the destination active, the same data in it, the
   * source still there, and the request gone; unless the environment names the directory.
   */
  lemma MovedOnRestart(s: State, dest: Path, order: seq<Rel>, written: seq<seq<int>>)
    requires s.phase == Running && s.pending.None? && s.env.None?
    requires Active(s) in s.trees && dest !in s.trees && Apart(Active(s), dest) && Plain(s.trees[Active(s)])
    requires Walks(order, s.trees[Active(s)]) && |written| == |order| && Faithful(s.trees[Active(s)], order, written)
    ensures var t := Run(s, [Queue(dest, false), QueueRename(false)] + [Restart] + Move(order, written) + [Clear(false), Start]);
      && t.phase == Running && t.pending.None? && Active(t) == dest
      && t.trees == s.trees[dest := s.trees[Active(s)]] && t.data == s.data
  {
    var p := Pending(Active(s), dest, false);
    QueuedIff(s, dest, false);
    var a := Run(s, [Queue(dest, false), QueueRename(false)]);
    RunTwo(a, Restart, Restart);
    var b := Run(a, [Restart]);
    MoveCompletesIff(b, p, order, written);
    hide Move, Walks, Apart, Plain, Faithful;
    var c := Run(b, Move(order, written));
    RunTwo(c, Clear(false), Start);
    RunConcat(s, [Queue(dest, false), QueueRename(false)], [Restart]);
    RunConcat(s, [Queue(dest, false), QueueRename(false)] + [Restart], Move(order, written));
    RunConcat(s, [Queue(dest, false), QueueRename(false)] + [Restart] + Move(order, written), [Clear(false), Start]);
  }

  /** A switch is made without looking at the source; the data is then what the other directory holds. */
  lemma SwitchedOnRestart(s: State, p: Pending)
    requires s.phase == Loading && s.pending == Some(p) && p.switchOnly && Active(s) == p.source && s.env.None?
    ensures var t := Run(s, [Load(false, true)] + [WriteTmp(false), Rename(false), Report] + [Clear(false), Start]);
      t == s.(phase := Running, pending := None, locator := Some(p.dest), data := TreeAt(s, p.dest))
  {
    hide Run;
    var load, switch, finish := [Load(false, true)], [WriteTmp(false), Rename(false), Report], [Clear(false), Start];
    RunTwo(s, Load(false, true), Start);
    var a := s.(phase := Writing(p, false));
    RunSwitch(a, p);
    RunConcat(s, load, switch);
    RunConcat(s, load + switch, finish);
    var b := a.(phase := Clearing, locator := Some(p.dest), data := TreeAt(s, p.dest));
    assert Run(s, load) == a;
    RunTwo(b, Clear(false), Start);
  }

  lemma RunSwitch(s: State, p: Pending)
    requires s.phase == Writing(p, false) && p.switchOnly && s.env.None?
    ensures Run(s, [WriteTmp(false), Rename(false), Report]) ==
      s.(phase := Clearing, locator := Some(p.dest), data := TreeAt(s, p.dest))
  {
    hide Next, Run;
    RunThree(s, WriteTmp(false), Rename(false), Report);
    LastSteps(s, p, false);
    LastSteps(Renamed(s, p), p, false);
  }

  /** A fault in one of the three loops, or a link or special file, leads to the removal of what was made. */
  lemma FaultGivesUp(s: State, e: Event)
    requires
      || (s.phase.Copying? && s.phase.i < |s.phase.walk| && e.CopyNext?)
      || (s.phase.Verifying? && s.phase.j < |s.phase.walk| && e.VerifyNext?)
      || (s.phase.Fixing? && 0 < s.phase.k <= |s.phase.walk| && e.FixNext?)
    requires e.fault || (s.phase.Copying? && s.phase.walk[s.phase.i] in TreeAt(s, s.phase.p.source)
                         && var n := TreeAt(s, s.phase.p.source)[s.phase.walk[s.phase.i]]; n.Link? || n.Special?)
    ensures Next(s, e) == s.(phase := Undoing(s.phase.p))
    ensures Run(s, [e, Undo(None)]) == s.(trees := s.trees - {s.phase.p.dest}, phase := Reporting)
  {
    hide Begun, Queued, Loaded, Stopped, EntryVerified;
    RunTwo(s, e, Undo(None));
  }

  /** So does a locator that cannot be written; a switch has made nothing, so nothing is removed. */
  lemma LocatorFault(s: State, p: Pending, created: bool)
    ensures var giveUp := s.(phase := if created then Undoing(p) else Reporting);
      && Next(s.(phase := Writing(p, created)), WriteTmp(true)) == giveUp
      && Next(s.(phase := Renaming(p, created)), Rename(true)) == giveUp
  {
  }

  /** A request of another deployment is dropped; one that cannot be read, or none, changes nothing. */
  lemma OtherDeployment(s: State, cleared: bool)
    requires s.phase == Loading
    ensures Next(s, Load(true, cleared)) == s.(phase := Down)
    ensures s.pending.None? ==> Next(s, Load(false, cleared)) == s.(phase := Down)
    ensures s.pending.Some? && Active(s) != s.pending.value.source ==>
      Next(s, Load(false, cleared)) == s.(phase := Down, pending := if cleared then None else s.pending)
  {
  }

  /**
   * A stop in the middle of copying, closing or removing may leave anything at the destination, and it is left
   * alone at any other time; the request stays, and is looked at again after the next restart.
   */
  lemma StoppedAnywhere(s: State, left: Option<Tree>)
    ensures var t := Next(s, Crash(left)); var making := s.phase.Copying? || s.phase.Fixing? || s.phase.Undoing?;
      && t == s.(phase := Down, trees := t.trees)
      && (forall path :: path in t.trees <==> if making && path == s.phase.p.dest then left.Some? else path in s.trees)
      && (forall path | path in t.trees ::
            t.trees[path] == if making && path == s.phase.p.dest then left.value else s.trees[path])
      && Run(t, [Start, Restart]) == t.(phase := Loading)
  {
    RunTwo(Next(s, Crash(left)), Start, Restart);
    hide CopyEntry, FixEntry, VerifyEntry, Begun, Queued, Loaded;
  }
}
