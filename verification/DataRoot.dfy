/**
 * Moving the data directory (internal/config/root.go, internal/config/locator.go). A move is queued by
 * the running program and carried out, step by step, when that is asked to restart and its managers are
 * closed; the program may be stopped at any step, and any file operation may fail.
 */
module DataRoot {
  import opened Options

  type Path = seq<string>
  type Rel = seq<string>

  /** Permission bits: those of the owner, and the rest. */
  datatype Mode = Mode(owner: int, rest: int)

  datatype Node = Dir(mode: Mode) | File(mode: Mode, content: seq<int>) | Link | Special

  /** What is below a data directory, by path relative to it. */
  type Tree = map<Rel, Node>

  datatype Pending = Pending(source: Path, dest: Path, switchOnly: bool)

  /** Where the program is; `created` tells that this run made the destination. */
  datatype Phase =
    | Down
    | Running
    | Queueing(next: Pending)
    | Loading
    | Beginning(p: Pending)
    | Copying(p: Pending, walk: seq<Rel>, i: nat)
    | Fixing(p: Pending, walk: seq<Rel>, k: nat)
    | Verifying(p: Pending, walk: seq<Rel>, j: nat)
    | Writing(p: Pending, created: bool)
    | Renaming(p: Pending, created: bool)
    | Undoing(p: Pending)
    | Reporting
    | Clearing

  /** `env` is RUNPILOT_DATA_DIR. `data` is history: the contents the program last worked on or was told to use. */
  datatype State = State(
    env: Option<Path>, default: Path, trees: map<Path, Tree>, locator: Option<Path>,
    pending: Option<Pending>, phase: Phase, data: Tree)

  datatype Event =
    | Start
    | Restart
    | Crash(left: Option<Tree>)
    | Work(content: Tree)
    | Outside(path: Path, tree: Option<Tree>)
    | Queue(dest: Path, switchOnly: bool)
    | QueueRename(fault: bool)
    | Load(fault: bool, cleared: bool)
    | Begin(fault: bool, order: seq<Rel>)
    | CopyNext(fault: bool, written: seq<int>)
    | FixNext(fault: bool)
    | VerifyNext(fault: bool)
    | WriteTmp(fault: bool)
    | Rename(fault: bool)
    | Undo(left: Option<Tree>)
    | Report
    | Clear(fault: bool)

  // ---- directories ---------------------------------------------------------------------------

  function TreeAt(s: State, path: Path): Tree {
    if path in s.trees then s.trees[path] else map[]
  }

  /** ResolveDataDir without a command line flag. */
  function Active(s: State): Path {
    if s.env.Some? then s.env.value else if s.locator.Some? then s.locator.value else s.default
  }

  predicate Inside(parent: Path, child: Path) {
    parent < child
  }

  predicate Apart(a: Path, b: Path) {
    a != b && !Inside(a, b) && !Inside(b, a)
  }

  /** An order in which filepath.WalkDir may visit a tree: each entry once, directories before contents. */
  predicate Walks(walk: seq<Rel>, tree: Tree) {
    && (forall i :: 0 <= i < |walk| ==> walk[i] in tree)
    && (forall rel :: rel in tree ==> rel in walk)
    && (forall i, j :: 0 <= i < j < |walk| ==> walk[i] != walk[j] && !(walk[j] < walk[i]))
  }

  function Put(trees: map<Path, Tree>, path: Path, tree: Option<Tree>): map<Path, Tree> {
    if tree.Some? then trees[path := tree.value] else trees - {path}
  }

  // ---- the steps -----------------------------------------------------------------------------

  function Failed(s: State, p: Pending, created: bool): State {
    s.(phase := if created then Undoing(p) else Reporting)
  }

  /** One entry into the destination; directories stay open to their owner until the end. */
  function CopyEntry(s: State, p: Pending, walk: seq<Rel>, i: nat, fault: bool, written: seq<int>): State
    requires i < |walk|
  {
    var source, dest, rel := TreeAt(s, p.source), TreeAt(s, p.dest), walk[i];
    if fault || rel !in source then Failed(s, p, true)
    else match source[rel]
      case Dir(m) => s.(trees := s.trees[p.dest := dest[rel := Dir(Mode(7, m.rest))]], phase := Copying(p, walk, i + 1))
      case File(m, _) => s.(trees := s.trees[p.dest := dest[rel := File(m, written)]], phase := Copying(p, walk, i + 1))
      case Link => Failed(s, p, true)
      case Special => Failed(s, p, true)
  }

  function FixEntry(s: State, p: Pending, walk: seq<Rel>, k: nat, fault: bool): State
    requires 0 < k <= |walk|
  {
    var source, dest, rel := TreeAt(s, p.source), TreeAt(s, p.dest), walk[k - 1];
    if fault || rel !in source then Failed(s, p, true)
    else if source[rel].Dir? then
      s.(trees := s.trees[p.dest := dest[rel := source[rel]]], phase := Fixing(p, walk, k - 1))
    else s.(phase := Fixing(p, walk, k - 1))
  }

  /** What verification compares: kinds and contents, not modes. */
  predicate EntryVerified(source: Tree, dest: Tree, rel: Rel) {
    && rel in source && rel in dest
    && match source[rel]
       case Dir(_) => dest[rel].Dir?
       case File(_, c) => dest[rel].File? && dest[rel].content == c
       case Link => false
       case Special => false
  }

  /** A stop in the middle of a copy or a removal leaves the destination in any state. */
  function Stopped(s: State, left: Option<Tree>): State {
    if s.phase.Copying? || s.phase.Fixing? || s.phase.Undoing? then
      s.(trees := Put(s.trees, s.phase.p.dest, left), phase := Down)
    else s.(phase := Down)
  }

  /** queueDataRoot, up to the temporary file. */
  function Queued(s: State, dest: Path, switchOnly: bool): State {
    if !Apart(Active(s), dest) || (!switchOnly && dest in s.trees) || s.pending.Some? then s
    else s.(phase := Queueing(Pending(Active(s), dest, switchOnly)))
  }

  /** ApplyPendingDataRoot, up to the choice of what to do. */
  function Loaded(s: State, fault: bool, cleared: bool): State {
    if fault || s.pending.None? then s.(phase := Down)
    else if Active(s) != s.pending.value.source then
      s.(pending := if cleared then None else s.pending, phase := Down)
    else if s.pending.value.switchOnly then s.(phase := Writing(s.pending.value, false))
    else s.(phase := Beginning(s.pending.value))
  }

  function Begun(s: State, p: Pending, fault: bool, order: seq<Rel>): State {
    if fault || p.dest in s.trees || !Apart(p.source, p.dest) then Failed(s, p, false)
    else if p.source !in s.trees then Failed(s.(trees := s.trees[p.dest := map[]]), p, true)
    else if !Walks(order, TreeAt(s, p.source)) then s
    else s.(trees := s.trees[p.dest := map[]], phase := Copying(p, order, 0))
  }

  function VerifyEntry(s: State, p: Pending, walk: seq<Rel>, j: nat, fault: bool): State
    requires j < |walk|
  {
    if fault || !EntryVerified(TreeAt(s, p.source), TreeAt(s, p.dest), walk[j]) then Failed(s, p, true)
    else s.(phase := Verifying(p, walk, j + 1))
  }

  /** The rename of the locator's temporary file: from here on the destination is the active directory. */
  function Renamed(s: State, p: Pending): State {
    s.(locator := Some(p.dest), phase := Reporting,
       data := if p.switchOnly && s.env.None? then TreeAt(s, p.dest) else s.data)
  }

  /** Events that are not possible in a phase change nothing. */
  function Next(s: State, e: Event): State {
    match e
    case Crash(left) => Stopped(s, left)
    case Start => if s.phase.Down? then s.(phase := Running) else s
    case Restart => if s.phase.Running? then s.(phase := Loading) else s
    case Work(content) =>
      if s.phase.Running? || s.phase.Queueing? then s.(trees := s.trees[Active(s) := content], data := content) else s
    case Outside(path, tree) =>
      if (s.phase.Running? || s.phase.Down?) && path != Active(s) then s.(trees := Put(s.trees, path, tree)) else s
    case Queue(dest, switchOnly) => if s.phase.Running? then Queued(s, dest, switchOnly) else s
    case QueueRename(fault) =>
      if s.phase.Queueing? then s.(pending := if fault then s.pending else Some(s.phase.next), phase := Running) else s
    case Load(fault, cleared) => if s.phase.Loading? then Loaded(s, fault, cleared) else s
    case Begin(fault, order) => if s.phase.Beginning? then Begun(s, s.phase.p, fault, order) else s
    case CopyNext(fault, written) =>
      if !s.phase.Copying? then s
      else if s.phase.i < |s.phase.walk| then CopyEntry(s, s.phase.p, s.phase.walk, s.phase.i, fault, written)
      else s.(phase := Fixing(s.phase.p, s.phase.walk, |s.phase.walk|))
    case FixNext(fault) =>
      if !s.phase.Fixing? then s
      else if 0 < s.phase.k <= |s.phase.walk| then FixEntry(s, s.phase.p, s.phase.walk, s.phase.k, fault)
      else s.(phase := Verifying(s.phase.p, s.phase.walk, 0))
    case VerifyNext(fault) =>
      if !s.phase.Verifying? then s
      else if s.phase.j < |s.phase.walk| then VerifyEntry(s, s.phase.p, s.phase.walk, s.phase.j, fault)
      else s.(phase := Writing(s.phase.p, true))
    case WriteTmp(fault) =>
      if !s.phase.Writing? then s
      else if fault then Failed(s, s.phase.p, s.phase.created)
      else s.(phase := Renaming(s.phase.p, s.phase.created))
    case Rename(fault) =>
      if !s.phase.Renaming? then s
      else if fault then Failed(s, s.phase.p, s.phase.created)
      else Renamed(s, s.phase.p)
    case Undo(left) =>
      if s.phase.Undoing? then s.(trees := Put(s.trees, s.phase.p.dest, left), phase := Reporting) else s
    case Report => if s.phase.Reporting? then s.(phase := Clearing) else s
    case Clear(fault) =>
      if s.phase.Clearing? then s.(pending := if fault then s.pending else None, phase := Down) else s
  }

  function Run(s: State, events: seq<Event>): State {
    if events == [] then s else Next(Run(s, events[..|events| - 1]), events[|events| - 1])
  }

  predicate Initial(s: State) {
    s.phase == Down && s.pending == None && s.data == TreeAt(s, Active(s))
  }

  // ---- what every step keeps -----------------------------------------------------------------

  predicate CopiedEntry(source: Node, dest: Node) {
    match source
    case Dir(m) => dest == Dir(Mode(7, m.rest))
    case File(m, _) => dest.File? && dest.mode == m
    case Link => false
    case Special => false
  }

  predicate Copied(source: Tree, dest: Tree, walk: seq<Rel>, i: nat) {
    && i <= |walk| && Walks(walk, source)
    && (forall rel :: rel in dest ==> rel in walk[..i])
    && (forall j :: 0 <= j < i ==> walk[j] in dest && CopiedEntry(source[walk[j]], dest[walk[j]]))
  }

  predicate SameEntries(source: Tree, dest: Tree, walk: seq<Rel>) {
    && Walks(walk, source)
    && (forall rel :: rel in dest ==> rel in source)
    && (forall j :: 0 <= j < |walk| ==> walk[j] in dest)
  }

  /** Entries from `k` on have their final mode. */
  predicate Fixed(source: Tree, dest: Tree, walk: seq<Rel>, k: nat) {
    && k <= |walk| && SameEntries(source, dest, walk)
    && (forall j :: 0 <= j < k ==> CopiedEntry(source[walk[j]], dest[walk[j]]))
    && (forall j :: k <= j < |walk| ==> Restored(source[walk[j]], dest[walk[j]]))
  }

  predicate Restored(source: Node, dest: Node) {
    match source
    case Dir(_) => dest == source
    case File(m, _) => dest.File? && dest.mode == m
    case Link => false
    case Special => false
  }

  predicate Verified(source: Tree, dest: Tree, walk: seq<Rel>, j: nat) {
    && j <= |walk| && Fixed(source, dest, walk, 0)
    && (forall i :: 0 <= i < j ==> EntryVerified(source, dest, walk[i]))
  }

  /** A relocation under way is from the active directory to another one. */
  predicate Ours(s: State, p: Pending) {
    p.source == Active(s) && p.source != p.dest
  }

  predicate Making(s: State, p: Pending) {
    Ours(s, p) && !p.switchOnly
  }

  predicate PhaseOk(s: State) {
    match s.phase
    case Down => true
    case Running => true
    case Queueing(p) => Ours(s, p)
    case Loading => true
    case Beginning(p) => Making(s, p)
    case Copying(p, walk, i) => Making(s, p) && Copied(TreeAt(s, p.source), TreeAt(s, p.dest), walk, i)
    case Fixing(p, walk, k) => Making(s, p) && Fixed(TreeAt(s, p.source), TreeAt(s, p.dest), walk, k)
    case Verifying(p, walk, j) => Making(s, p) && Verified(TreeAt(s, p.source), TreeAt(s, p.dest), walk, j)
    case Writing(p, created) =>
      Ours(s, p) && created == !p.switchOnly && (created ==> TreeAt(s, p.dest) == TreeAt(s, p.source))
    case Renaming(p, created) =>
      Ours(s, p) && created == !p.switchOnly && (created ==> TreeAt(s, p.dest) == TreeAt(s, p.source))
    case Undoing(p) => Making(s, p)
    case Reporting => true
    case Clearing => true
  }

  /** The active directory holds the data: what the program last worked on, or was told to switch to. */
  predicate Inv(s: State) {
    && TreeAt(s, Active(s)) == s.data
    && PhaseOk(s)
    && (s.pending.Some? ==> s.pending.value.source != s.pending.value.dest)
  }

  lemma WalkFacts(walk: seq<Rel>, tree: Tree, i: nat)
    requires Walks(walk, tree) && i < |walk|
    ensures walk[i] in tree && forall j :: 0 <= j < |walk| && j != i ==> walk[j] != walk[i]
  {
  }

  lemma CopyKeeps(source: Tree, dest: Tree, walk: seq<Rel>, i: nat, node: Node)
    requires Copied(source, dest, walk, i) && i < |walk| && CopiedEntry(source[walk[i]], node)
    ensures Copied(source, dest[walk[i] := node], walk, i + 1)
  {
    hide Walks, CopiedEntry;
    WalkFacts(walk, source, i);
    assert walk[..i + 1] == walk[..i] + [walk[i]];
  }

  lemma CopyEnds(source: Tree, dest: Tree, walk: seq<Rel>)
    requires Copied(source, dest, walk, |walk|)
    ensures Fixed(source, dest, walk, |walk|)
  {
    assert walk[..|walk|] == walk;
  }

  lemma FixKeeps(source: Tree, dest: Tree, walk: seq<Rel>, k: nat)
    requires Fixed(source, dest, walk, k) && 0 < k
    ensures source[walk[k - 1]].Dir? ==> Fixed(source, dest[walk[k - 1] := source[walk[k - 1]]], walk, k - 1)
    ensures !source[walk[k - 1]].Dir? ==> Fixed(source, dest, walk, k - 1)
  {
    WalkFacts(walk, source, k - 1);
    hide Walks;
  }

  /** What was copied with its modes, and verified, is the same tree. */
  lemma VerifiedIsEqual(source: Tree, dest: Tree, walk: seq<Rel>)
    requires Verified(source, dest, walk, |walk|)
    ensures dest == source
  {
    forall rel | rel in source
      ensures rel in dest && dest[rel] == source[rel]
    {
      var j :| 0 <= j < |walk| && walk[j] == rel;
      assert EntryVerified(source, dest, walk[j]) && Restored(source[walk[j]], dest[walk[j]]);
    }
  }

  /** Changing the destination does not touch the active directory. */
  lemma DestIsNotActive(s: State, p: Pending, tree: Option<Tree>)
    requires Ours(s, p)
    ensures var t := s.(trees := Put(s.trees, p.dest, tree));
      && Active(t) == Active(s) && TreeAt(t, p.source) == TreeAt(s, p.source)
      && TreeAt(t, p.dest) == if tree.Some? then tree.value else map[]
  {
  }

  lemma CopiedOneMore(s: State, p: Pending, walk: seq<Rel>, i: nat, node: Node)
    requires Making(s, p) && TreeAt(s, Active(s)) == s.data && i < |walk|
    requires Copied(TreeAt(s, p.source), TreeAt(s, p.dest), walk, i)
    requires CopiedEntry(TreeAt(s, p.source)[walk[i]], node)
    requires s.pending.Some? ==> s.pending.value.source != s.pending.value.dest
    ensures Inv(s.(trees := s.trees[p.dest := TreeAt(s, p.dest)[walk[i] := node]], phase := Copying(p, walk, i + 1)))
  {
    CopyKeeps(TreeAt(s, p.source), TreeAt(s, p.dest), walk, i, node);
    DestIsNotActive(s, p, Some(TreeAt(s, p.dest)[walk[i] := node]));
    hide Copied, CopiedEntry;
  }

  /** Giving up leads to the removal of what this run made. */
  lemma GivingUp(s: State, p: Pending)
    requires Making(s, p) && TreeAt(s, Active(s)) == s.data
    requires s.pending.Some? ==> s.pending.value.source != s.pending.value.dest
    ensures Inv(Failed(s, p, true))
  {
  }

  lemma CopyEntryKeepsInv(s: State, p: Pending, walk: seq<Rel>, i: nat, fault: bool, written: seq<int>)
    requires Inv(s) && s.phase == Copying(p, walk, i) && i < |walk|
    ensures Inv(CopyEntry(s, p, walk, i, fault, written))
  {
    assert walk[i] in TreeAt(s, p.source);
    assert Making(s, p);
    GivingUp(s, p);
    var node := TreeAt(s, p.source)[walk[i]];
    if node.Dir? {
      CopiedOneMore(s, p, walk, i, Dir(Mode(7, node.mode.rest)));
    } else if node.File? {
      CopiedOneMore(s, p, walk, i, File(node.mode, written));
    }
    hide Inv, Making, Copied, Walks, TreeAt, Active;
  }

  lemma CopyDoneKeepsInv(s: State, p: Pending, walk: seq<Rel>)
    requires Inv(s) && s.phase == Copying(p, walk, |walk|)
    ensures Inv(s.(phase := Fixing(p, walk, |walk|)))
  {
    hide Copied, Fixed, Walks;
    CopyEnds(TreeAt(s, p.source), TreeAt(s, p.dest), walk);
  }

  lemma CopyStepKeepsInv(s: State, e: Event)
    requires Inv(s) && s.phase.Copying? && e.CopyNext?
    ensures Inv(Next(s, e))
  {
    var p, walk, i := s.phase.p, s.phase.walk, s.phase.i;
    assert i <= |walk|;
    hide Inv, CopyEntry;
    if i < |walk| {
      CopyEntryKeepsInv(s, p, walk, i, e.fault, e.written);
    } else {
      CopyDoneKeepsInv(s, p, walk);
    }
  }

  lemma FixedFacts(source: Tree, dest: Tree, walk: seq<Rel>, k: nat)
    requires Fixed(source, dest, walk, k) && 0 < k
    ensures k <= |walk| && walk[k - 1] in source
  {
  }

  lemma FixEntryKeepsInv(s: State, p: Pending, walk: seq<Rel>, k: nat, fault: bool)
    requires Inv(s) && s.phase == Fixing(p, walk, k) && 0 < k
    ensures k <= |walk| && Inv(FixEntry(s, p, walk, k, fault))
  {
    hide Fixed;
    var source, dest := TreeAt(s, p.source), TreeAt(s, p.dest);
    GivingUp(s, p);
    FixedFacts(source, dest, walk, k);
    FixKeeps(source, dest, walk, k);
    DestIsNotActive(s, p, Some(dest[walk[k - 1] := source[walk[k - 1]]]));
  }

  lemma FixDoneKeepsInv(s: State, p: Pending, walk: seq<Rel>)
    requires Inv(s) && s.phase == Fixing(p, walk, 0)
    ensures Inv(s.(phase := Verifying(p, walk, 0)))
  {
    hide Fixed, Walks;
  }

  lemma FixStepKeepsInv(s: State, e: Event)
    requires Inv(s) && s.phase.Fixing? && e.FixNext?
    ensures Inv(Next(s, e))
  {
    var p, walk, k := s.phase.p, s.phase.walk, s.phase.k;
    hide Inv, FixEntry;
    if k > 0 {
      FixEntryKeepsInv(s, p, walk, k, e.fault);
    } else {
      FixDoneKeepsInv(s, p, walk);
    }
  }

  lemma VerifyEntryKeepsInv(s: State, p: Pending, walk: seq<Rel>, j: nat, fault: bool)
    requires Inv(s) && s.phase == Verifying(p, walk, j) && j < |walk|
    ensures Inv(VerifyEntry(s, p, walk, j, fault))
  {
    hide Fixed, EntryVerified, Walks;
    GivingUp(s, p);
  }

  lemma VerifyStepKeepsInv(s: State, e: Event)
    requires Inv(s) && s.phase.Verifying? && e.VerifyNext?
    ensures Inv(Next(s, e))
  {
    var p, walk, j := s.phase.p, s.phase.walk, s.phase.j;
    if j < |walk| {
      VerifyEntryKeepsInv(s, p, walk, j, e.fault);
      hide Inv, VerifyEntry;
    } else {
      VerifiedIsEqual(TreeAt(s, p.source), TreeAt(s, p.dest), walk);
      hide Verified, Fixed, Walks;
    }
  }

  lemma QueueStepKeepsInv(s: State, e: Event)
    requires Inv(s) && (e.Queue? || e.QueueRename?)
    ensures Inv(Next(s, e))
  {
    hide Copied, Fixed, Verified, Walks, Inside;
  }

  lemma LoadKeepsInv(s: State, fault: bool, cleared: bool)
    requires Inv(s) && s.phase.Loading?
    ensures Inv(Loaded(s, fault, cleared))
  {
  }

  lemma RenameKeepsInv(s: State)
    requires Inv(s) && s.phase.Renaming?
    ensures Inv(Renamed(s, s.phase.p)) && Inv(Failed(s, s.phase.p, s.phase.created))
  {
  }

  lemma WriteKeepsInv(s: State)
    requires Inv(s) && s.phase.Writing?
    ensures Inv(s.(phase := Renaming(s.phase.p, s.phase.created))) && Inv(Failed(s, s.phase.p, s.phase.created))
  {
  }

  /** The other steps that leave the directories alone. */
  lemma PhaseStepKeepsInv(s: State, e: Event)
    requires Inv(s)
    requires e.Start? || e.Restart? || e.Load? || e.WriteTmp? || e.Rename? || e.Report? || e.Clear?
    ensures Inv(Next(s, e))
  {
    match e
    case Load(fault, cleared) =>
      hide Inv, Loaded;
      if s.phase.Loading? { LoadKeepsInv(s, fault, cleared); }
    case Rename(_) =>
      hide Inv, Renamed, Failed;
      if s.phase.Renaming? { RenameKeepsInv(s); }
    case WriteTmp(_) =>
      hide Inv, Failed;
      if s.phase.Writing? { WriteKeepsInv(s); }
    case _ => hide Copied, Fixed, Verified, Walks, Inside;
  }

  lemma DirectoryStepKeepsInv(s: State, e: Event)
    requires Inv(s) && (e.Work? || e.Outside? || e.Undo?)
    ensures Inv(Next(s, e))
  {
    hide Copied, Fixed, Verified, Walks, Apart;
    if s.phase.Undoing? && e.Undo? {
      DestIsNotActive(s, s.phase.p, e.left);
    }
  }

  /** A step that does not belong to the phase. */
  lemma IdleStepKeepsInv(s: State, e: Event)
    requires Inv(s)
    requires (e.CopyNext? && !s.phase.Copying?) || (e.FixNext? && !s.phase.Fixing?) || (e.VerifyNext? && !s.phase.Verifying?)
    ensures Inv(Next(s, e))
  {
    hide Inv;
  }

  lemma BeginKeepsInv(s: State, e: Event)
    requires Inv(s) && e.Begin?
    ensures Inv(Next(s, e))
  {
    hide Fixed, Verified, Walks, EntryVerified, CopyEntry, FixEntry;
    if s.phase.Beginning? {
      DestIsNotActive(s, s.phase.p, Some(map[]));
    }
  }

  /** A stop at any step leaves the active directory as it was. */
  lemma CrashKeepsInv(s: State, e: Event)
    requires Inv(s) && e.Crash?
    ensures Inv(Next(s, e))
    ensures Active(Next(s, e)) == Active(s)
  {
    hide Copied, Fixed, Verified;
    if s.phase.Copying? || s.phase.Fixing? || s.phase.Undoing? {
      DestIsNotActive(s, s.phase.p, e.left);
    }
  }

  lemma NextKeepsInv(s: State, e: Event)
    requires Inv(s)
    ensures Inv(Next(s, e))
  {
    hide Inv, Next;
    if s.phase.Copying? && e.CopyNext? {
      CopyStepKeepsInv(s, e);
    } else if s.phase.Fixing? && e.FixNext? {
      FixStepKeepsInv(s, e);
    } else if s.phase.Verifying? && e.VerifyNext? {
      VerifyStepKeepsInv(s, e);
    } else if e.Crash? {
      CrashKeepsInv(s, e);
    } else if e.Begin? {
      BeginKeepsInv(s, e);
    } else if e.CopyNext? || e.FixNext? || e.VerifyNext? {
      IdleStepKeepsInv(s, e);
    } else if e.Work? || e.Outside? || e.Undo? {
      DirectoryStepKeepsInv(s, e);
    } else if e.Queue? || e.QueueRename? {
      QueueStepKeepsInv(s, e);
    } else {
      PhaseStepKeepsInv(s, e);
    }
  }

  lemma {:induction false} RunInv(s: State, events: seq<Event>)
    requires Initial(s)
    ensures Inv(Run(s, events))
  {
    if events != [] {
      RunInv(s, events[..|events| - 1]);
      hide Inv, Next;
      NextKeepsInv(Run(s, events[..|events| - 1]), events[|events| - 1]);
    }
  }

  // ---- the theorems --------------------------------------------------------------------------

  /**
   * At every point of every run, whatever failed and wherever it was stopped, the directory that the next
   * start would use holds the data.
   */
  lemma ActiveHoldsTheData(s: State, events: seq<Event>)
    requires Initial(s)
    ensures var t := Run(s, events); TreeAt(t, Active(t)) == t.data
  {
    RunInv(s, events);
  }

  /**
   * The data itself changes only by the program's own work, or when a switch without copying is made. A
   * relocation with copying never changes it, nor does anything that fails, nor a stop.
   */
  lemma DataChangesOnlyByWork(s: State, e: Event)
    ensures Next(s, e).data != s.data ==> e.Work? || (e == Rename(false) && s.phase.Renaming? && s.phase.p.switchOnly)
  {
    hide EntryVerified, Walks;
  }

  /**
   * The locator moves in one step only, and in a relocation with copying only to a directory that is at
   * this moment equal to the source, contents and modes; so no failed copy or verification moves it.
   */
  lemma LocatorMovesLast(s: State, events: seq<Event>, e: Event)
    requires Initial(s) && Next(Run(s, events), e).locator != Run(s, events).locator
    ensures var t := Run(s, events);
      && e == Rename(false) && t.phase.Renaming? && Next(t, e).locator == Some(t.phase.p.dest)
      && (!t.phase.p.switchOnly ==> TreeAt(t, t.phase.p.dest) == TreeAt(t, t.phase.p.source) == t.data)
  {
    RunInv(s, events);
    OnlyRenameMoves(Run(s, events), e);
    hide Run, Initial, Next, Copied, Fixed, Verified;
  }

  lemma OnlyRenameMoves(s: State, e: Event)
    requires Next(s, e).locator != s.locator
    ensures e == Rename(false) && s.phase.Renaming? && Next(s, e).locator == Some(s.phase.p.dest)
  {
    hide EntryVerified, Walks, Apart;
  }

  predicate UnderWay(s: State) {
    s.phase.Copying? || s.phase.Fixing? || s.phase.Verifying? || s.phase.Undoing?
  }

  /** A relocation under way changes no directory but its destination. */
  lemma EntriesOnlyTheDestination(s: State, e: Event, path: Path)
    requires (s.phase.Copying? && e.CopyNext?) || (s.phase.Fixing? && e.FixNext?) || (s.phase.Verifying? && e.VerifyNext?)
    requires path != s.phase.p.dest
    ensures TreeAt(Next(s, e), path) == TreeAt(s, path)
  {
    hide EntryVerified;
  }

  lemma OnlyTheDestination(s: State, e: Event, path: Path)
    requires UnderWay(s) && path != s.phase.p.dest
    ensures TreeAt(Next(s, e), path) == TreeAt(s, path)
  {
    hide CopyEntry, FixEntry, VerifyEntry, Begun, Queued, Loaded;
    if (s.phase.Copying? && e.CopyNext?) || (s.phase.Fixing? && e.FixNext?) || (s.phase.Verifying? && e.VerifyNext?) {
      EntriesOnlyTheDestination(s, e, path);
    }
  }

  /** Its source in particular stays as it is. */
  lemma SourceUntouched(s: State, events: seq<Event>, e: Event)
    requires Initial(s) && UnderWay(Run(s, events))
    ensures var t := Run(s, events); TreeAt(Next(t, e), t.phase.p.source) == TreeAt(t, t.phase.p.source)
  {
    RunInv(s, events);
    var t := Run(s, events);
    assert Making(t, t.phase.p);
    OnlyTheDestination(t, e, t.phase.p.source);
  }

  /** A file is copied only into a directory that this run made. */
  lemma NothingIsOverwritten(s: State, e: Event)
    requires Next(s, e).phase.Copying? && !s.phase.Copying?
    ensures s.phase.Beginning? && s.phase.p.dest !in s.trees && TreeAt(Next(s, e), s.phase.p.dest) == map[]
  {
    hide EntryVerified, CopyEntry, FixEntry, VerifyEntry, Walks, Apart, Active;
    if s.phase.Fixing? || s.phase.Verifying? {
      LoopsDoNotCopy(s, e);
    }
  }

  lemma LoopsDoNotCopy(s: State, e: Event)
    requires s.phase.Fixing? || s.phase.Verifying?
    ensures !Next(s, e).phase.Copying?
  {
    hide EntryVerified;
  }

  // ---- permissions along the way -------------------------------------------------------------

  /** All directories above `rel` let their owner list, enter and change them. */
  predicate Open(tree: Tree, rel: Rel) {
    forall n :: 0 < n < |rel| ==> rel[..n] in tree && tree[rel[..n]].Dir? && tree[rel[..n]].mode.owner == 7
  }

  /** A tree: what is above an entry is a directory. */
  predicate Rooted(tree: Tree) {
    forall rel, n :: rel in tree && 0 < n < |rel| ==> rel[..n] in tree && tree[rel[..n]].Dir?
  }

  lemma Above(walk: seq<Rel>, tree: Tree, i: nat, n: nat) returns (j: nat)
    requires Walks(walk, tree) && Rooted(tree) && i < |walk| && 0 < n < |walk[i]|
    ensures j < i && walk[j] == walk[i][..n] && tree[walk[j]].Dir?
  {
    assert walk[i][..n] in tree;
    j :| 0 <= j < |walk| && walk[j] == walk[i][..n];
    assert walk[j] < walk[i];
    assert j != i;
    assert !(i < j);
  }

  lemma CopyingIsOpen(source: Tree, dest: Tree, walk: seq<Rel>, i: nat)
    requires Copied(source, dest, walk, i) && i < |walk| && Rooted(source)
    ensures Open(dest, walk[i])
  {
    forall n | 0 < n < |walk[i]|
      ensures walk[i][..n] in dest && dest[walk[i][..n]].Dir? && dest[walk[i][..n]].mode.owner == 7
    {
      var j := Above(walk, source, i, n);
    }
  }

  lemma FixingIsOpen(source: Tree, dest: Tree, walk: seq<Rel>, k: nat)
    requires Fixed(source, dest, walk, k) && 0 < k && Rooted(source)
    ensures Open(dest, walk[k - 1])
  {
    var rel := walk[k - 1];
    forall n | 0 < n < |rel|
      ensures rel[..n] in dest && dest[rel[..n]].Dir? && dest[rel[..n]].mode.owner == 7
    {
      var j := Above(walk, source, k - 1, n);
    }
  }

  /**
   * Why directories are first made open to their owner and closed in reverse order: every entry is made,
   * and every mode set, below directories that are still open, however closed the source is.
   */
  lemma AlwaysOpenWhereItWorks(s: State, events: seq<Event>)
    requires Initial(s)
    ensures var t := Run(s, events);
      && (t.phase.Copying? && t.phase.i < |t.phase.walk| && Rooted(TreeAt(t, t.phase.p.source)) ==>
            Open(TreeAt(t, t.phase.p.dest), t.phase.walk[t.phase.i]))
      && (t.phase.Fixing? && 0 < t.phase.k <= |t.phase.walk| && Rooted(TreeAt(t, t.phase.p.source)) ==>
            Open(TreeAt(t, t.phase.p.dest), t.phase.walk[t.phase.k - 1]))
  {
    hide Run, Initial, Inv, Copied, Fixed, Rooted, Open;
    RunInv(s, events);
    OpenNow(Run(s, events));
  }

  lemma OpenNow(s: State)
    requires Inv(s)
    ensures s.phase.Copying? && s.phase.i < |s.phase.walk| && Rooted(TreeAt(s, s.phase.p.source)) ==>
      Open(TreeAt(s, s.phase.p.dest), s.phase.walk[s.phase.i])
    ensures s.phase.Fixing? && 0 < s.phase.k <= |s.phase.walk| && Rooted(TreeAt(s, s.phase.p.source)) ==>
      Open(TreeAt(s, s.phase.p.dest), s.phase.walk[s.phase.k - 1])
  {
    hide Copied, Fixed, Verified, Rooted, Open, TreeAt, Active;
    if s.phase.Copying? && s.phase.i < |s.phase.walk| && Rooted(TreeAt(s, s.phase.p.source)) {
      CopyingIsOpen(TreeAt(s, s.phase.p.source), TreeAt(s, s.phase.p.dest), s.phase.walk, s.phase.i);
    }
    if s.phase.Fixing? && 0 < s.phase.k <= |s.phase.walk| && Rooted(TreeAt(s, s.phase.p.source)) {
      FixingIsOpen(TreeAt(s, s.phase.p.source), TreeAt(s, s.phase.p.dest), s.phase.walk, s.phase.k);
    }
  }

  // ---- the loops -----------------------------------------------------------------------------

  /** What is made of one entry; links and special files are refused. */
  function CopyOf(source: Node, written: seq<int>): (r: Option<Node>)
    ensures r.Some? ==> CopiedEntry(source, r.value)
    ensures r.None? <==> source.Link? || source.Special?
  {
    match source
    case Dir(m) => Some(Dir(Mode(7, m.rest)))
    case File(m, _) => Some(File(m, written))
    case Link => None
    case Special => None
  }

  /** Directories and files only. */
  predicate Plain(tree: Tree) {
    forall rel :: rel in tree ==> tree[rel].Dir? || tree[rel].File?
  }

  /** Operation number `failAt` is one of the copying: an entry made, or a directory closed at the end. */
  predicate CopyFails(source: Tree, order: seq<Rel>, failAt: nat)
    requires Walks(order, source)
  {
    failAt < |order| || (failAt - |order| < |order| && source[order[failAt - |order|]].Dir?)
  }

  /** What was written to the files among the first `n` entries. */
  predicate Holds(source: Tree, dest: Tree, order: seq<Rel>, written: seq<seq<int>>, n: nat) {
    n <= |order| <= |written| &&
    forall j :: 0 <= j < n && order[j] in source && source[order[j]].File? ==>
      order[j] in dest && dest[order[j]].File? && dest[order[j]].content == written[j]
  }

  /** Every file was written with the contents it has in the source. */
  predicate Faithful(source: Tree, order: seq<Rel>, written: seq<seq<int>>) {
    |order| <= |written| &&
    forall j :: 0 <= j < |order| && order[j] in source && source[order[j]].File? ==> written[j] == source[order[j]].content
  }

  predicate PlainUpTo(source: Tree, order: seq<Rel>, n: nat) {
    n <= |order| && forall j :: 0 <= j < n && order[j] in source ==> source[order[j]].Dir? || source[order[j]].File?
  }

  lemma AllPlain(source: Tree, order: seq<Rel>)
    requires Walks(order, source)
    ensures Plain(source) <==> PlainUpTo(source, order, |order|)
  {
  }

  /** After a copy, verification succeeds exactly if the contents were written faithfully. */
  lemma VerifiesIff(source: Tree, dest: Tree, order: seq<Rel>, written: seq<seq<int>>)
    requires Fixed(source, dest, order, 0) && Holds(source, dest, order, written, |order|)
    ensures (forall j :: 0 <= j < |order| ==> EntryVerified(source, dest, order[j])) <==> Faithful(source, order, written)
  {
    forall j | 0 <= j < |order|
      ensures EntryVerified(source, dest, order[j]) <==> (source[order[j]].File? ==> written[j] == source[order[j]].content)
    {
      assert Restored(source[order[j]], dest[order[j]]);
    }
  }

  /**
   * The walk and then the closing of directories, with the file operation number `failAt` failing. It succeeds
   * exactly if none of its operations fails and nothing but directories and files is met. Success gives the
   * same entries with the same modes; contents are left for verification to compare.
   */
  method CopyTree(source: Tree, order: seq<Rel>, written: seq<seq<int>>, failAt: nat) returns (dest: Tree, ok: bool)
    requires Walks(order, source) && |written| == |order|
    ensures ok <==> Plain(source) && !CopyFails(source, order, failAt)
    ensures ok ==> Fixed(source, dest, order, 0) && Holds(source, dest, order, written, |order|)
  {
    hide Copied, Fixed, Holds, Plain, Walks;
    dest, ok := MakeEntries(source, order, written, failAt);
    if ok {
      CopyEnds(source, dest, order);
      dest, ok := CloseDirectories(source, dest, order, written, failAt);
    }
  }

  method MakeEntries(source: Tree, order: seq<Rel>, written: seq<seq<int>>, failAt: nat) returns (dest: Tree, ok: bool)
    requires Walks(order, source) && |written| == |order|
    ensures ok <==> Plain(source) && failAt >= |order|
    ensures ok ==> Copied(source, dest, order, |order|) && Holds(source, dest, order, written, |order|)
  {
    hide Walks, CopiedEntry;
    AllPlain(source, order);
    hide Plain;
    dest := map[];
    var i := 0;
    while i < |order|
      invariant i <= |order| <= |written| && Copied(source, dest, order, i) && i <= failAt
      invariant PlainUpTo(source, order, i) && Holds(source, dest, order, written, i)
    {
      WalkFacts(order, source, i);
      var node := CopyOf(source[order[i]], written[i]);
      if i == failAt || node.None? {
        return dest, false;
      }
      CopyKeeps(source, dest, order, i, node.value);
      dest := dest[order[i] := node.value];
      i := i + 1;
    }
    return dest, true;
  }

  method CloseDirectories(source: Tree, copy: Tree, order: seq<Rel>, written: seq<seq<int>>, failAt: nat)
    returns (dest: Tree, ok: bool)
    requires Walks(order, source) && |written| == |order| && failAt >= |order|
    requires Fixed(source, copy, order, |order|) && Holds(source, copy, order, written, |order|)
    ensures ok <==> !CopyFails(source, order, failAt)
    ensures ok ==> Fixed(source, dest, order, 0) && Holds(source, dest, order, written, |order|)
  {
    hide Walks, CopiedEntry, Restored, Fixed;
    dest := copy;
    var i: nat := |order|;
    while i > 0
      invariant i <= |order| <= |written| && Fixed(source, dest, order, i)
      invariant i <= failAt - |order| < |order| ==> order[failAt - |order|] in source && !source[order[failAt - |order|]].Dir?
      invariant Holds(source, dest, order, written, |order|)
    {
      WalkFacts(order, source, i - 1);
      FixKeeps(source, dest, order, i);
      i := i - 1;
      var node := source[order[i]];
      if node.Dir? {
        if |order| + i == failAt {
          return dest, false;
        }
        dest := dest[order[i] := node];
      }
    }
    return dest, true;
  }

  /** Verification succeeds exactly if each entry of the source is there with its kind and content. */
  method VerifyTree(source: Tree, dest: Tree, order: seq<Rel>, failAt: nat) returns (ok: bool)
    ensures ok <==> failAt >= |order| && forall j :: 0 <= j < |order| ==> EntryVerified(source, dest, order[j])
  {
    for j := 0 to |order|
      invariant failAt >= j && forall m :: 0 <= m < j ==> EntryVerified(source, dest, order[m])
    {
      if j == failAt || !EntryVerified(source, dest, order[j]) {
        return false;
      }
    }
    return true;
  }

  lemma PutAgain(trees: map<Path, Tree>, dest: Path, copy: Tree, left: Option<Tree>)
    requires dest !in trees
    ensures Put(trees[dest := copy], dest, left) == Put(trees, dest, left)
  {
  }

  lemma ApartDiffer(a: Path, b: Path)
    requires Apart(a, b)
    ensures a != b
  {
  }

  // ---- the object ----------------------------------------------------------------------------

  /**
   * What goes wrong: reading the request, the copying or verifying step with a number, what a removal
   * leaves behind, the locator's temporary file, its rename, and the removal of the request.
   */
  datatype Faults = Faults(
    read: bool, copyAt: nat, verifyAt: nat, left: Option<Tree>, tmp: bool, rename: bool, clear: bool)

  /** The file operations, undisturbed by stops. */
  class Host {
    const env: Option<Path>
    const default: Path
    var trees: map<Path, Tree>
    var locator: Option<Path>
    var tmp: Option<Path>
    var pending: Option<Pending>

    constructor (env: Option<Path>, default: Path, trees: map<Path, Tree>, locator: Option<Path>, pending: Option<Pending>)
      ensures this.env == env && this.default == default
      ensures this.trees == trees && this.locator == locator && this.pending == pending
    {
      this.env, this.default, this.trees, this.locator, this.pending := env, default, trees, locator, pending;
      tmp := None;
    }

    function Tree(path: Path): Tree
      reads this`trees
    {
      if path in trees then trees[path] else map[]
    }

    function Resolve(): Path
      reads this`locator
    {
      if env.Some? then env.value else if locator.Some? then locator.value else default
    }

    /** A copy with verification can be made and nothing disturbs it. */
    predicate Copies(p: Pending, order: seq<Rel>, written: seq<seq<int>>, faults: Faults)
      reads this`trees
      requires Walks(order, Tree(p.source))
    {
      var source := Tree(p.source);
      && p.dest !in trees && Apart(p.source, p.dest) && p.source in trees && Plain(source)
      && !CopyFails(source, order, faults.copyAt) && faults.verifyAt >= |order| && Faithful(source, order, written)
    }

    /** A copy goes to a new directory, which is removed again if anything fails, as far as that succeeds. */
    method CopyDataRoot(source: Path, dest: Path, order: seq<Rel>, written: seq<seq<int>>, faults: Faults)
      returns (created: bool, ok: bool)
      requires Walks(order, Tree(source)) && |written| == |order|
      modifies this`trees
      ensures created <==> old(dest !in trees) && Apart(source, dest)
      ensures ok <==> created && old(source in trees) && Plain(old(Tree(source)))
                      && !CopyFails(old(Tree(source)), order, faults.copyAt)
      ensures ok ==> dest in trees && Fixed(old(Tree(source)), Tree(dest), order, 0)
      ensures ok ==> Holds(old(Tree(source)), Tree(dest), order, written, |order|)
      ensures ok ==> trees == old(trees)[dest := Tree(dest)]
      ensures !ok ==> trees == if created then Put(old(trees), dest, faults.left) else old(trees)
    {
      hide Walks, Fixed, Apart, Plain, CopyFails, Holds;
      if dest in trees || !Apart(source, dest) {
        return false, false;
      }
      created := true;
      if source !in trees {
        PutAgain(trees, dest, map[], faults.left);
        trees := trees[dest := map[]];
        RemoveAll(dest, faults);
        return true, false;
      }
      var copy;
      copy, ok := CopyTree(Tree(source), order, written, faults.copyAt);
      PutAgain(trees, dest, copy, faults.left);
      trees := trees[dest := copy];
      if !ok {
        RemoveAll(dest, faults);
      }
    }

    method RemoveAll(dest: Path, faults: Faults)
      modifies this`trees
      ensures trees == Put(old(trees), dest, faults.left)
    {
      trees := match faults.left
               case None => trees - {dest}
               case Some(tree) => trees[dest := tree];
    }

    /** WriteDataRoot: the temporary file, then the rename that makes it the locator. */
    method WriteDataRoot(path: Path, faults: Faults) returns (ok: bool)
      modifies this`locator, this`tmp
      ensures ok <==> !faults.tmp && !faults.rename
      ensures locator == if ok then Some(path) else old(locator)
      ensures tmp == None
    {
      tmp := None;
      if faults.tmp {
        return false;
      }
      tmp := Some(path);
      if faults.rename {
        tmp := None;
        return false;
      }
      locator, tmp := tmp, None;
      return true;
    }

    /**
     * A relocation succeeds exactly if the active directory is its source, the locator can be written and,
     * with copying, the destination is new and apart, the source a plain tree, and no step fails or writes
     * anything but what it read. It leaves the locator at the destination and, with copying, an equal tree
     * there. One that fails leaves the locator, and no directory is touched but the destination that it
     * made itself. The request is gone unless it could not be read or removed.
     */
    method ApplyPendingDataRoot(order: seq<Rel>, written: seq<seq<int>>, faults: Faults) returns (ok: bool)
      requires pending.Some? ==> Walks(order, Tree(pending.value.source)) && |written| == |order|
      modifies this
      ensures old(pending).None? || faults.read ==>
        ok == !faults.read && trees == old(trees) && locator == old(locator) && pending == old(pending)
      ensures old(pending).Some? && !faults.read ==>
        var p := old(pending).value;
        && pending == (if faults.clear then old(pending) else None)
        && (ok <==>
              && old(Resolve()) == p.source && !faults.tmp && !faults.rename
              && (p.switchOnly || old(Copies(p, order, written, faults))))
        && (ok ==> locator == Some(p.dest))
        && (ok && !p.switchOnly ==>
              trees == old(trees)[p.dest := old(Tree(p.source))] && old(p.dest !in trees) && Apart(p.source, p.dest))
        && (!ok ==> locator == old(locator))
        && (!ok || p.switchOnly ==>
              || trees == old(trees)
              || (!p.switchOnly && old(p.dest !in trees) && Apart(p.source, p.dest) && trees == Put(old(trees), p.dest, faults.left)))
    {
      hide Walks, Fixed, Apart, Plain, CopyFails, Holds, Faithful, EntryVerified;
      if faults.read || pending.None? {
        return !faults.read;
      }
      var p := pending.value;
      if Resolve() != p.source {
        if !faults.clear {
          pending := None;
        }
        return false;
      }
      ghost var before, from := trees, Tree(p.source);
      var created := false;
      ok := true;
      if !p.switchOnly {
        created, ok := CopyDataRoot(p.source, p.dest, order, written, faults);
        if ok {
          ApartDiffer(p.source, p.dest);
          assert Tree(p.source) == from;
          VerifiesIff(from, Tree(p.dest), order, written);
          ok := VerifyTree(Tree(p.source), Tree(p.dest), order, faults.verifyAt);
          if ok {
            assert Verified(from, Tree(p.dest), order, |order|);
            VerifiedIsEqual(from, Tree(p.dest), order);
          } else {
            PutAgain(before, p.dest, Tree(p.dest), faults.left);
            RemoveAll(p.dest, faults);
          }
        }
      }
      if ok {
        ok := WriteDataRoot(p.dest, faults);
        if !ok && created {
          PutAgain(before, p.dest, from, faults.left);
          RemoveAll(p.dest, faults);
        }
      }
      if !faults.clear {
        pending := None;
      }
    }
  }
}
