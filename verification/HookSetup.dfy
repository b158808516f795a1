/**
 * Installing and removing the session hook: a config, the runner it points to, and a record of the
 * digests setup owns, all under one lock. Setups, crashes and edits of the files' contents interleave;
 * a check and the rename, link or unlink after it are one step.
 */
module HookSetup {
  import opened Wrappers

  datatype Path = Config | Runner | Record | LockFile

  /** A file's contents and identity. */
  datatype File = File(body: string, ino: nat)

  type Files = map<Path, File>

  datatype Digests = Digests(config: string, runner: string)

  /** What one version of the program installs. */
  datatype Contents = Contents(config: string, runner: string, record: string)

  /** The digest, and the parser of ownership records. */
  datatype World = World(digest: string -> string, parse: string -> Option<Digests>)

  function Body(contents: Contents, path: Path): string {
    match path
    case Config => contents.config
    case Runner => contents.runner
    case Record => contents.record
    case LockFile => ""
  }

  function DigestOf(ds: Digests, path: Path): string {
    if path == Config then ds.config else ds.runner
  }

  function Look(files: Files, path: Path): Option<File> {
    if path in files then Some(files[path]) else None
  }

  // ----- the ownership check

  /** The snapshots taken under the lock. */
  datatype Seen = Seen(config: Option<File>, runner: Option<File>, record: Option<File>)

  function At(seen: Seen, path: Path): Option<File> {
    match path
    case Config => seen.config
    case Runner => seen.runner
    case Record => seen.record
    case LockFile => None
  }

  predicate Matches(w: World, file: Option<File>, digest: string) {
    file.Some? ==> w.digest(file.value.body) == digest
  }

  /** `ownedState` does not throw. An empty record counts as none. */
  predicate Owned(w: World, seen: Seen) {
    if seen.record.None? || seen.record.value.body == "" then seen == Seen(None, None, None)
    else
      match w.parse(seen.record.value.body)
      case None => false
      case Some(ds) => Matches(w, seen.config, ds.config) && Matches(w, seen.runner, ds.runner)
  }

  // ----- setups

  /** `next` counts the snapshots taken, then the paths published or deleted. */
  datatype Phase = Starting | Snapping(next: nat) | Acting(next: nat) | Releasing

  datatype Setup = Setup(install: bool, contents: Contents, phase: Phase, owned: Option<File>, seen: Seen)

  datatype State = State(files: Files, nextIno: nat, setups: map<nat, Setup>)

  datatype Step =
    | Begin(id: nat, install: bool, contents: Contents)
    | TakeLock(id: nat)
    | Advance(id: nat)
    | Fail(id: nat)
    | Crash(id: nat)
    | Edit(path: Path, body: string, replaced: bool)
    | ClearStaleLock

  /** Runner before record before config: a config never points to a missing runner. */
  function PublishOrder(k: nat): Path {
    if k == 0 then Runner else if k == 1 then Record else Config
  }

  /** Config first. */
  function DeleteOrder(k: nat): Path {
    if k == 0 then Config else if k == 1 then Runner else Record
  }

  function With(s: State, id: nat, setup: Setup): State {
    s.(setups := s.setups[id := setup])
  }

  function Holding(setup: Setup): bool {
    !setup.phase.Starting?
  }

  function Snapped(s: State, setup: Setup): Setup
    requires setup.phase.Snapping?
  {
    match setup.phase.next
    case 0 => setup.(phase := Snapping(1), seen := setup.seen.(config := Look(s.files, Config)))
    case 1 => setup.(phase := Snapping(2), seen := setup.seen.(runner := Look(s.files, Runner)))
    case _ => setup.(phase := Snapping(3), seen := setup.seen.(record := Look(s.files, Record)))
  }

  /** One path is published, unless it changed since the snapshot. */
  function Publish(s: State, id: nat, setup: Setup, path: Path): State
    requires setup.phase.Acting?
  {
    var before := At(setup.seen, path);
    var next := setup.(phase := Acting(setup.phase.next + 1));
    if before.Some? && before.value.body == Body(setup.contents, path) then With(s, id, next)
    else if Look(s.files, path) != before then With(s, id, setup.(phase := Releasing))
    else
      With(s.(files := s.files[path := File(Body(setup.contents, path), s.nextIno)], nextIno := s.nextIno + 1), id, next)
  }

  function Delete(s: State, id: nat, setup: Setup, path: Path): State
    requires setup.phase.Acting?
  {
    var before := At(setup.seen, path);
    var next := setup.(phase := Acting(setup.phase.next + 1));
    if before.None? then With(s, id, next)
    else if Look(s.files, path) != before then With(s, id, setup.(phase := Releasing))
    else With(s.(files := s.files - {path}), id, next)
  }

  function Release(s: State, id: nat, setup: Setup): State {
    var freed := if setup.owned.Some? && Look(s.files, LockFile) == setup.owned then s.files - {LockFile} else s.files;
    s.(files := freed, setups := s.setups - {id})
  }

  function AdvanceSetup(w: World, s: State, id: nat, setup: Setup): State {
    match setup.phase
    case Starting => s
    case Snapping(next) =>
      if next < 3 then With(s, id, Snapped(s, setup))
      else With(s, id, setup.(phase := if Owned(w, setup.seen) then Acting(0) else Releasing))
    case Acting(next) =>
      if next >= 3 then With(s, id, setup.(phase := Releasing))
      else if setup.install then Publish(s, id, setup, PublishOrder(next))
      else Delete(s, id, setup, DeleteOrder(next))
    case Releasing => Release(s, id, setup)
  }

  function Apply(w: World, s: State, step: Step): State {
    match step
    case Begin(id, install, contents) =>
      if id in s.setups || (!install && Record !in s.files) then s
      else With(s, id, Setup(install, contents, Starting, None, Seen(None, None, None)))
    case TakeLock(id) =>
      if id !in s.setups || !s.setups[id].phase.Starting? then s
      else if LockFile in s.files then s.(setups := s.setups - {id})
      else
        var lock := File("", s.nextIno);
        With(s.(files := s.files[LockFile := lock], nextIno := s.nextIno + 1), id,
             s.setups[id].(phase := Snapping(0), owned := Some(lock)))
    case Advance(id) => if id !in s.setups then s else AdvanceSetup(w, s, id, s.setups[id])
    case Fail(id) =>
      if id !in s.setups then s
      else if !Holding(s.setups[id]) then s.(setups := s.setups - {id})
      else With(s, id, s.setups[id].(phase := Releasing))
    case Crash(id) => s.(setups := s.setups - {id})
    case Edit(path, body, replaced) =>
      if path !in s.files then s
      else
        s.(files := s.files[path := File(body, if replaced then s.nextIno else s.files[path].ino)], nextIno := s.nextIno + 1)
    case ClearStaleLock =>
      if exists id :: id in s.setups && Holding(s.setups[id]) then s else s.(files := s.files - {LockFile})
  }

  function Run(w: World, s: State, steps: seq<Step>): State {
    if steps == [] then s else Apply(w, Run(w, s, steps[..|steps| - 1]), steps[|steps| - 1])
  }

  const EMPTY := State(map[], 0, map[])

  // ----- what every run keeps

  ghost predicate OneHolder(s: State) {
    forall a, b :: a in s.setups && b in s.setups && Holding(s.setups[a]) && Holding(s.setups[b]) ==> a == b
  }

  /** What the holder knows: files come and go only by its own hand, whoever edits them meanwhile. */
  ghost predicate HolderKnows(w: World, files: Files, setup: Setup) {
    && LockFile in files
    && match setup.phase
       case Snapping(next) =>
         && next <= 3
         && (next > 0 ==> (setup.seen.config.Some? <==> Config in files))
         && (next > 1 ==> (setup.seen.runner.Some? <==> Runner in files))
         && (next > 2 ==> (setup.seen.record.Some? <==> Record in files))
       case Acting(next) =>
         && Owned(w, setup.seen)
         && (setup.install && next > 0 ==> Runner in files)
         && (setup.install && next == 0 ==> (setup.seen.runner.Some? <==> Runner in files))
         && (!setup.install && next > 0 ==> Config !in files)
         && (!setup.install && next == 0 ==> (setup.seen.config.Some? <==> Config in files))
       case _ => true
  }

  ghost predicate Invariant(w: World, s: State) {
    && OneHolder(s)
    && (Config in s.files ==> Runner in s.files)
    && forall id :: id in s.setups && Holding(s.setups[id]) ==> HolderKnows(w, s.files, s.setups[id])
  }

  lemma AdvanceKeepsInvariant(w: World, s: State, id: nat)
    requires Invariant(w, s) && id in s.setups
    ensures Invariant(w, AdvanceSetup(w, s, id, s.setups[id]))
  {
  }

  lemma StepKeepsInvariant(w: World, s: State, step: Step)
    requires Invariant(w, s)
    ensures Invariant(w, Apply(w, s, step))
  {
    if step.Advance? && step.id in s.setups {
      AdvanceKeepsInvariant(w, s, step.id);
    }
  }

  /**
   * On every run, two setups never hold the lock together, and an existing config's runner exists.
   */
  lemma {:induction false} RunKeepsInvariant(w: World, s: State, steps: seq<Step>)
    requires Invariant(w, s)
    ensures Invariant(w, Run(w, s, steps))
  {
    if steps != [] {
      RunKeepsInvariant(w, s, steps[..|steps| - 1]);
      StepKeepsInvariant(w, Run(w, s, steps[..|steps| - 1]), steps[|steps| - 1]);
    }
  }

  lemma SetupsExcludeEachOther(w: World, steps: seq<Step>)
    ensures var s := Run(w, EMPTY, steps);
      && OneHolder(s)
      && (Config in s.files ==> Runner in s.files)
  {
    RunKeepsInvariant(w, EMPTY, steps);
  }

  /** `path` holds what the record read by this setup lists. */
  ghost predicate Listed(w: World, files: Files, seen: Seen, path: Path)
    requires path in files
  {
    seen.record.Some? && w.parse(seen.record.value.body).Some?
    && DigestOf(w.parse(seen.record.value.body).value, path) == w.digest(files[path].body)
  }

  /** The setup that took `step` read an ownership record under its lock that lists this very content of `path`. */
  ghost predicate ListedByOwner(w: World, s: State, step: Step, path: Path) {
    step.Advance? && step.id in s.setups && path in s.files && Listed(w, s.files, s.setups[step.id].seen, path)
  }

  /** Nothing but an edit of the user's changes or removes a config or runner the ownership record does not list. */
  lemma ForeignFilesArePreserved(w: World, steps: seq<Step>, step: Step, path: Path)
    requires path == Config || path == Runner
    requires var s := Run(w, EMPTY, steps);
      path in s.files && Look(Apply(w, s, step).files, path) != Some(s.files[path])
    ensures step.Edit? || ListedByOwner(w, Run(w, EMPTY, steps), step, path)
  {
    RunKeepsInvariant(w, EMPTY, steps);
    ForeignFileStays(w, Run(w, EMPTY, steps), step, path);
  }

  lemma ForeignFileStays(w: World, s: State, step: Step, path: Path)
    requires Invariant(w, s) && (path == Config || path == Runner) && path in s.files
    ensures step.Edit? || ListedByOwner(w, s, step, path) || Look(Apply(w, s, step).files, path) == Some(s.files[path])
  {
    if step.Advance? && step.id in s.setups && s.setups[step.id].phase.Acting? {
      var setup := s.setups[step.id];
      assert HolderKnows(w, s.files, setup);
      if setup.phase.next < 3 {
        if setup.install {
          PublishedWasOwned(w, s, step.id, setup, PublishOrder(setup.phase.next), path);
        } else {
          DeletedWasOwned(w, s, step.id, setup, DeleteOrder(setup.phase.next), path);
        }
      }
    }
  }

  lemma PublishedWasOwned(w: World, s: State, id: nat, setup: Setup, written: Path, path: Path)
    requires setup.phase.Acting? && Owned(w, setup.seen) && (path == Config || path == Runner) && path in s.files
    ensures Look(Publish(s, id, setup, written).files, path) == Some(s.files[path]) || Listed(w, s.files, setup.seen, path)
  {
  }

  lemma DeletedWasOwned(w: World, s: State, id: nat, setup: Setup, deleted: Path, path: Path)
    requires setup.phase.Acting? && Owned(w, setup.seen) && (path == Config || path == Runner) && path in s.files
    ensures Look(Delete(s, id, setup, deleted).files, path) == Some(s.files[path]) || Listed(w, s.files, setup.seen, path)
  {
  }

  // ----- what an interrupted setup leaves

  predicate Installs(files: Files, contents: Contents) {
    && Config in files && files[Config].body == contents.config
    && Runner in files && files[Runner].body == contents.runner
    && Record in files && files[Record].body == contents.record
  }

  function SeenIn(files: Files): Seen {
    Seen(Look(files, Config), Look(files, Runner), Look(files, Record))
  }

  /** What one version installs passes its own ownership check. */
  ghost predicate SoundContents(w: World, contents: Contents) {
    && contents.record != ""
    && w.parse(contents.record) == Some(Digests(w.digest(contents.config), w.digest(contents.runner)))
  }

  /** A setup stopped before its next action has left files that no setup takes for its own. */
  predicate Interrupts(w: World, setup: Setup)
    requires setup.phase.Acting? && Owned(w, setup.seen)
  {
    var contents, seen := setup.contents, setup.seen;
    && setup.install
    && if setup.phase.next == 1 then seen.record.None? || w.digest(contents.runner) != w.parse(seen.record.value.body).value.runner
       else setup.phase.next == 2 && seen.config.Some? && w.digest(contents.config) != w.digest(seen.config.value.body)
  }

  /** What became of one path: done with, or as it was seen. */
  ghost predicate Progressed(files: Files, setup: Setup, path: Path, done: bool) {
    if !done then Look(files, path) == At(setup.seen, path)
    else if setup.install then path in files && files[path].body == Body(setup.contents, path)
    else path !in files
  }

  /** While the lock is held nobody else touches the files: the snapshots and the setup's own actions tell all. */
  ghost predicate Undisturbed(w: World, files: Files, setup: Setup) {
    match setup.phase
    case Snapping(next) =>
      && (next > 0 ==> setup.seen.config == Look(files, Config))
      && (next > 1 ==> setup.seen.runner == Look(files, Runner))
      && (next > 2 ==> setup.seen.record == Look(files, Record))
    case Acting(next) =>
      && next <= 3 && Owned(w, setup.seen)
      && (setup.install ==>
            Progressed(files, setup, Runner, next > 0) && Progressed(files, setup, Record, next > 1)
            && Progressed(files, setup, Config, next > 2))
      && (!setup.install ==>
            Progressed(files, setup, Config, next > 0) && Progressed(files, setup, Runner, next > 1)
            && Progressed(files, setup, Record, next > 2))
    case _ => true
  }

  ghost predicate CalmInvariant(w: World, s: State) {
    && OneHolder(s)
    && (forall id :: id in s.setups && Holding(s.setups[id]) ==> LockFile in s.files && Undisturbed(w, s.files, s.setups[id]))
    && forall id :: id in s.setups && s.setups[id].install ==> SoundContents(w, s.setups[id].contents)
  }

  /** Edits come while no setup holds the lock, and a setup installs what passes its own check. */
  ghost predicate Calm(w: World, s: State, step: Step) {
    && (step.Edit? ==> forall id :: id in s.setups ==> !Holding(s.setups[id]))
    && (step.Begin? && step.install ==> SoundContents(w, step.contents))
  }

  lemma CalmActing(w: World, s: State, id: nat, setup: Setup)
    requires CalmInvariant(w, s) && id in s.setups && setup == s.setups[id] && setup.phase.Acting? && setup.phase.next < 3
    ensures CalmInvariant(w, AdvanceSetup(w, s, id, setup))
    ensures var s' := AdvanceSetup(w, s, id, setup); id in s'.setups && s'.setups[id] == setup.(phase := Acting(setup.phase.next + 1))
  {
  }

  lemma CalmAdvance(w: World, s: State, id: nat)
    requires CalmInvariant(w, s) && id in s.setups
    ensures CalmInvariant(w, AdvanceSetup(w, s, id, s.setups[id]))
  {
    var setup := s.setups[id];
    if setup.phase.Acting? && setup.phase.next < 3 {
      CalmActing(w, s, id, setup);
    } else if setup.phase.Snapping? {
      CalmSnapping(w, s, id, setup);
    }
  }

  lemma CalmSnapping(w: World, s: State, id: nat, setup: Setup)
    requires CalmInvariant(w, s) && id in s.setups && setup == s.setups[id] && setup.phase.Snapping?
    ensures CalmInvariant(w, AdvanceSetup(w, s, id, setup))
    ensures AdvanceSetup(w, s, id, setup).files == s.files
  {
  }

  lemma CalmStep(w: World, s: State, step: Step)
    requires CalmInvariant(w, s) && Calm(w, s, step)
    ensures CalmInvariant(w, Apply(w, s, step))
  {
    if step.Advance? && step.id in s.setups {
      CalmAdvance(w, s, step.id);
    }
  }

  ghost predicate CalmRun(w: World, s: State, steps: seq<Step>) {
    steps == [] || (CalmRun(w, s, steps[..|steps| - 1]) && Calm(w, Run(w, s, steps[..|steps| - 1]), steps[|steps| - 1]))
  }

  lemma {:induction false} CalmRunKeepsInvariant(w: World, s: State, steps: seq<Step>)
    requires CalmInvariant(w, s) && CalmRun(w, s, steps)
    ensures CalmInvariant(w, Run(w, s, steps))
  {
    if steps != [] {
      CalmRunKeepsInvariant(w, s, steps[..|steps| - 1]);
      CalmStep(w, Run(w, s, steps[..|steps| - 1]), steps[|steps| - 1]);
    }
  }

  /** What is there after the actions so far, seen by the next setup. */
  lemma OwnedWhenStopped(w: World, files: Files, setup: Setup)
    requires setup.phase.Acting? && Undisturbed(w, files, setup) && (setup.install ==> SoundContents(w, setup.contents))
    ensures Owned(w, SeenIn(files)) <==> !Interrupts(w, setup)
  {
    var seen := SeenIn(files);
    match setup.phase.next
    case 0 => assert seen == setup.seen;
    case 1 =>
    case 2 =>
    case 3 =>
  }

  /**
   * On every run whose edits come between setups: wherever a setup crashes or fails, in a first install,
   * a refresh or a removal, setup can still refresh and remove what is there, except exactly after the
   * runner of a first install, after a runner the old record does not list, and, with the new record
   * written, before a config that it does list and the old one was not.
   */
  lemma StoppedIsOwnedIff(w: World, steps: seq<Step>, id: nat)
    requires CalmRun(w, EMPTY, steps)
    requires var s := Run(w, EMPTY, steps); id in s.setups && s.setups[id].phase.Acting?
    ensures var s := Run(w, EMPTY, steps);
      && Owned(w, s.setups[id].seen)
      && (Owned(w, SeenIn(Apply(w, s, Crash(id)).files)) <==> !Interrupts(w, s.setups[id]))
      && (Owned(w, SeenIn(Apply(w, Apply(w, s, Fail(id)), Advance(id)).files)) <==> !Interrupts(w, s.setups[id]))
  {
    CalmRunKeepsInvariant(w, EMPTY, steps);
    var s := Run(w, EMPTY, steps);
    OwnedWhenStopped(w, s.files, s.setups[id]);
    assert SeenIn(Apply(w, Apply(w, s, Fail(id)), Advance(id)).files) == SeenIn(s.files);
  }

  /** Before its first action, a setup that stops leaves the files as they were. */
  lemma StoppedBeforeActing(w: World, s: State, id: nat)
    requires id in s.setups && !s.setups[id].phase.Acting?
    ensures SeenIn(Apply(w, s, Crash(id)).files) == SeenIn(s.files)
    ensures SeenIn(Apply(w, Apply(w, s, Fail(id)), Advance(id)).files) == SeenIn(s.files)
  {
  }

  /** Every such stop is one that a run can come to, from any owned files and a free lock. */
  lemma EveryStopIsReached(w: World, s: State, id: nat, k: nat) returns (steps: seq<Step>)
    requires CalmInvariant(w, s) && id in s.setups && s.setups[id].phase.Starting?
    requires LockFile !in s.files && Owned(w, SeenIn(s.files)) && k <= 3
    ensures CalmRun(w, s, steps)
    ensures var t := Run(w, s, steps);
      && CalmInvariant(w, t) && id in t.setups && t.setups[id].phase == Acting(k)
      && t.setups[id].install == s.setups[id].install && t.setups[id].contents == s.setups[id].contents
      && t.setups[id].seen == SeenIn(s.files)
  {
    if k == 0 {
      steps := CheckIsReached(w, s, id);
    } else {
      var before := EveryStopIsReached(w, s, id, k - 1);
      var t := Run(w, s, before);
      steps := before + [Advance(id)];
      RunOneMore(w, s, before, Advance(id));
      CalmActing(w, t, id, t.setups[id]);
    }
  }

  lemma CheckIsReached(w: World, s: State, id: nat) returns (steps: seq<Step>)
    requires CalmInvariant(w, s) && id in s.setups && s.setups[id].phase.Starting?
    requires LockFile !in s.files && Owned(w, SeenIn(s.files))
    ensures CalmRun(w, s, steps)
    ensures var t := Run(w, s, steps);
      && CalmInvariant(w, t) && id in t.setups && t.setups[id].phase == Acting(0)
      && t.setups[id].install == s.setups[id].install && t.setups[id].contents == s.setups[id].contents
      && t.setups[id].seen == SeenIn(s.files)
  {
    var locked := [TakeLock(id)];
    var one := locked + [Advance(id)];
    var two := one + [Advance(id)];
    var three := two + [Advance(id)];
    steps := three + [Advance(id)];
    assert [] + locked == locked;
    RunOneMore(w, s, [], TakeLock(id));
    RunOneMore(w, s, locked, Advance(id));
    RunOneMore(w, s, one, Advance(id));
    RunOneMore(w, s, two, Advance(id));
    assert SeenIn(Run(w, s, three).files) == SeenIn(s.files) == Run(w, s, three).setups[id].seen;
    RunOneMore(w, s, three, Advance(id));
    CalmRunKeepsInvariant(w, s, steps);
  }

  lemma RunOneMore(w: World, s: State, steps: seq<Step>, step: Step)
    ensures Run(w, s, steps + [step]) == Apply(w, Run(w, s, steps), step)
    ensures CalmRun(w, s, steps + [step]) <==> CalmRun(w, s, steps) && Calm(w, Run(w, s, steps), step)
  {
    assert (steps + [step])[..|steps|] == steps;
  }

  // ----- files that no setup takes for its own

  /** Not owned, and no setup is past its check or has seen anything else. */
  ghost predicate Stranded(w: World, s: State) {
    && !Owned(w, SeenIn(s.files))
    && forall id :: id in s.setups ==> !s.setups[id].phase.Acting? && Undisturbed(w, s.files, s.setups[id])
  }

  /** A stop that interrupts strands the files. */
  lemma InterruptedIsStranded(w: World, s: State, id: nat)
    requires CalmInvariant(w, s) && id in s.setups && s.setups[id].phase.Acting? && Interrupts(w, s.setups[id])
    ensures Stranded(w, Apply(w, s, Crash(id))) && Stranded(w, Apply(w, s, Fail(id)))
  {
    OwnedWhenStopped(w, s.files, s.setups[id]);
  }

  lemma StrandedStep(w: World, s: State, step: Step)
    requires Stranded(w, s) && !step.Edit?
    ensures Stranded(w, Apply(w, s, step)) && SeenIn(Apply(w, s, step).files) == SeenIn(s.files)
  {
    if step.Advance? && step.id in s.setups && s.setups[step.id].phase.Snapping? {
      assert Undisturbed(w, s.files, s.setups[step.id]);
    }
  }

  /** Until a user edits them, no setup ever takes stranded files back, replaces or removes them. */
  lemma {:induction false} StrandedStays(w: World, s: State, steps: seq<Step>)
    requires Stranded(w, s) && forall step :: step in steps ==> !step.Edit?
    ensures Stranded(w, Run(w, s, steps)) && SeenIn(Run(w, s, steps).files) == SeenIn(s.files)
  {
    if steps != [] {
      var init, last := steps[..|steps| - 1], steps[|steps| - 1];
      assert steps == init + [last];
      StrandedStays(w, s, init);
      StrandedStep(w, Run(w, s, init), last);
    }
  }

  /** A runner without a record, and no setup past its check. */
  ghost predicate Unrecorded(s: State) {
    && Record !in s.files && Runner in s.files
    && forall id :: id in s.setups ==> !s.setups[id].phase.Acting?
  }

  lemma UnrecordedStep(w: World, s: State, step: Step)
    requires Invariant(w, s) && Unrecorded(s)
    ensures Unrecorded(Apply(w, s, step))
    ensures !step.Edit? ==> Look(Apply(w, s, step).files, Runner) == Look(s.files, Runner)
  {
    if step.Advance? && step.id in s.setups && s.setups[step.id].phase == Snapping(3) {
      assert HolderKnows(w, s.files, s.setups[step.id]);
    }
  }

  /** Not even an edit gives such a runner back to setup. */
  lemma {:induction false} UnrecordedStays(w: World, s: State, steps: seq<Step>)
    requires Invariant(w, s) && Unrecorded(s)
    ensures Unrecorded(Run(w, s, steps))
    ensures (forall step :: step in steps ==> !step.Edit?) ==> Look(Run(w, s, steps).files, Runner) == Look(s.files, Runner)
  {
    if steps != [] {
      var init, last := steps[..|steps| - 1], steps[|steps| - 1];
      assert steps == init + [last];
      UnrecordedStays(w, s, init);
      RunKeepsInvariant(w, s, init);
      UnrecordedStep(w, Run(w, s, init), last);
    }
  }

  /** Every interrupting stop is reached by a run: of a first install after its runner, of a refresh after runner or record. */
  lemma CrashStrands(w: World, s: State, id: nat, k: nat) returns (steps: seq<Step>)
    requires CalmInvariant(w, s) && id in s.setups && s.setups[id].phase.Starting?
    requires LockFile !in s.files && Owned(w, SeenIn(s.files)) && k <= 3
    requires Interrupts(w, s.setups[id].(phase := Acting(k), seen := SeenIn(s.files)))
    ensures CalmRun(w, s, steps) && Stranded(w, Run(w, s, steps))
  {
    var before := EveryStopIsReached(w, s, id, k);
    var t := Run(w, s, before);
    steps := before + [Crash(id)];
    RunOneMore(w, s, before, Crash(id));
    InterruptedIsStranded(w, t, id);
  }

  /** A first install that crashes between the runner and the record strands the runner. */
  lemma CrashStrandsRunner(w: World, contents: Contents) returns (steps: seq<Step>)
    ensures var t := Run(w, EMPTY, steps);
      Stranded(w, t) && Unrecorded(t) && t.files[Runner].body == contents.runner
    ensures steps[|steps| - 1] == Crash(0) && forall step :: step in steps ==> !step.Edit?
  {
    var begun := [Begin(0, true, contents)];
    var locked := begun + [TakeLock(0)];
    var one := locked + [Advance(0)];
    var two := one + [Advance(0)];
    var three := two + [Advance(0)];
    var checked := three + [Advance(0)];
    var published := checked + [Advance(0)];
    steps := published + [Crash(0)];
    RunOneMore(w, EMPTY, [], Begin(0, true, contents));
    RunOneMore(w, EMPTY, begun, TakeLock(0));
    RunOneMore(w, EMPTY, locked, Advance(0));
    RunOneMore(w, EMPTY, one, Advance(0));
    RunOneMore(w, EMPTY, two, Advance(0));
    assert Run(w, EMPTY, three).setups[0].seen == Seen(None, None, None);
    RunOneMore(w, EMPTY, three, Advance(0));
    RunOneMore(w, EMPTY, checked, Advance(0));
    RunOneMore(w, EMPTY, published, Crash(0));
  }

  // ----- one setup, undisturbed

  class Workspace {
    var files: Files
    var nextIno: nat

    method PublishFile(path: Path, body: string, before: Option<File>)
      requires Look(files, path) == before
      modifies this
      ensures if before.Some? && before.value.body == body then files == old(files) && nextIno == old(nextIno)
              else files == old(files)[path := File(body, old(nextIno))] && nextIno == old(nextIno) + 1
    {
      if before.Some? && before.value.body == body {
        return;
      }
      files, nextIno := files[path := File(body, nextIno)], nextIno + 1;
    }

    /** Installs exactly when no lock is in the way and nothing is there that is not owned; else touches nothing. */
    method Install(w: World, contents: Contents) returns (installed: bool)
      modifies this
      ensures installed <==> LockFile !in old(files) && Owned(w, SeenIn(old(files)))
      ensures installed ==> Installs(files, contents) && LockFile !in files
      ensures !installed ==> files == old(files)
    {
      if LockFile in files {
        return false;
      }
      files, nextIno := files[LockFile := File("", nextIno)], nextIno + 1;
      var seen := SeenIn(files);
      installed := Owned(w, seen);
      if installed {
        PublishFile(Runner, contents.runner, seen.runner);
        PublishFile(Record, contents.record, seen.record);
        PublishFile(Config, contents.config, seen.config);
      }
      files := files - {LockFile};
      assert !installed ==> files == old(files);
    }

    /** Removes all three files when they are owned; without a record, or when one was edited, nothing. */
    method Remove(w: World) returns (removed: bool)
      modifies this
      ensures removed <==> Record in old(files) && LockFile !in old(files) && Owned(w, SeenIn(old(files)))
      ensures removed ==> files == old(files) - {Config, Runner, Record}
      ensures !removed ==> files == old(files)
    {
      if Record !in files || LockFile in files {
        return false;
      }
      files, nextIno := files[LockFile := File("", nextIno)], nextIno + 1;
      var seen := SeenIn(files);
      removed := Owned(w, seen);
      if removed {
        files := files - {Config};
        files := files - {Runner};
        files := files - {Record};
      }
      files := files - {LockFile};
      assert !removed ==> files == old(files);
      assert removed ==> files == old(files) - {Config, Runner, Record};
    }
  }

  /**
   * Setup takes the files for its own exactly when there are none, or a record that is not empty and can be read
   * lists the digests of those that are there.
   */
  lemma OwnedIff(w: World, files: Files)
    ensures Owned(w, SeenIn(files)) <==>
      || (Record !in files && Config !in files && Runner !in files)
      || (&& Record in files && files[Record].body != "" && w.parse(files[Record].body).Some?
          && (Config in files ==> w.digest(files[Config].body) == w.parse(files[Record].body).value.config)
          && (Runner in files ==> w.digest(files[Runner].body) == w.parse(files[Record].body).value.runner))
  {
  }

  /** What an install left can be refreshed and removed for exactly as long as no edit changed a digest. */
  lemma OwnedUntilEdited(w: World, files: Files, contents: Contents, path: Path, file: File)
    requires SoundContents(w, contents) && Installs(files, contents) && (path == Config || path == Runner)
    ensures Owned(w, SeenIn(files))
    ensures Owned(w, SeenIn(files[path := file])) <==> w.digest(file.body) == w.digest(Body(contents, path))
  {
    assert SeenIn(files).record.value.body == contents.record;
  }
}
