/** The key file's save protocol: lock, temporary file, write, chmod, fsync, close, rename,
    unlock, by any number of processes that may fail, be killed, or lose power at any step. */
module SaveProtocol {
  import opened Wrappers

  type Bytes = string

  /** The key file before the first save, and whether the platform's file lock excludes others: it does
      on Unix, and does nothing on Windows. */
  datatype Start = Start(content: Option<Bytes>, exclusive: bool)

  /** Bytes that were not fsynced may be anything after a power loss. */
  datatype File = File(data: Bytes, durable: bool)

  datatype Phase =
    | Waiting
    | Locked
    | Created(file: nat)
    | Written(file: nat)
    | Chmodded(file: nat)
    | Synced(file: nat)
    | Closed(file: nat)
    | Renamed
    | Failing(file: nat)
    | Failed
    | Done(ok: bool)
    | Dead
  {
    /** Between acquiring and releasing the lock. */
    predicate Critical() { !Waiting? && !Done? && !Dead? }
    predicate HasTemp() { Created? || Written? || Chmodded? || Synced? || Closed? || Failing? }
    predicate Complete() { Written? || Chmodded? || Synced? || Closed? }
  }

  datatype Save = Save(snapshot: Bytes, phase: Phase)

  /** The target entry points at a file or is absent. `earlier` holds the entries it had before:
      the directory is not fsynced, so a power loss may bring one back. */
  datatype State = State(
    exclusive: bool,
    files: map<nat, File>,
    target: Option<nat>,
    earlier: set<Option<nat>>,
    temps: set<nat>,
    lock: Option<nat>,
    saves: map<nat, Save>,
    committed: seq<nat>)

  datatype Event =
    | Begin(id: nat, snapshot: Bytes)
    | OpenLock(id: nat, ok: bool)
    | CreateTemp(id: nat, file: nat, ok: bool)
    | Write(id: nat, written: Bytes, ok: bool)
    | Chmod(id: nat, ok: bool)
    | Sync(id: nat, ok: bool)
    | Close(id: nat, ok: bool)
    | Rename(id: nat, ok: bool)
    | Remove(id: nat, ok: bool)
    | Unlock(id: nat)
    | Kill(id: nat)
    | PowerLoss(garbage: map<nat, Bytes>, back: Option<nat>)

  function Content(s: State): Option<Bytes> {
    if s.target.Some? && s.target.value in s.files then Some(s.files[s.target.value].data) else None
  }

  function PhaseOf(s: State, id: nat): Phase {
    if id in s.saves then s.saves[id].phase else Dead
  }

  predicate Enabled(s: State, e: Event) {
    match e
    case Begin(id, _) => id !in s.saves
    case OpenLock(id, ok) => PhaseOf(s, id).Waiting? && (ok && s.exclusive ==> s.lock.None?)
    case CreateTemp(id, file, _) => PhaseOf(s, id).Locked? && file !in s.files
    case Write(id, written, ok) =>
      PhaseOf(s, id).Created? && written <= s.saves[id].snapshot && (ok ==> written == s.saves[id].snapshot)
    case Chmod(id, _) => PhaseOf(s, id).Written?
    case Sync(id, _) => PhaseOf(s, id).Chmodded?
    case Close(id, _) => PhaseOf(s, id).Synced?
    case Rename(id, _) => PhaseOf(s, id).Closed?
    case Remove(id, _) => PhaseOf(s, id).Failing?
    case Unlock(id) => PhaseOf(s, id).Renamed? || PhaseOf(s, id).Failed?
    case Kill(id) => id in s.saves && !PhaseOf(s, id).Done?
    case PowerLoss(_, back) => back == s.target || back in s.earlier
  }

  function At(s: State, id: nat, phase: Phase): State
    requires id in s.saves
  {
    s.(saves := s.saves[id := s.saves[id].(phase := phase)])
  }

  // ---- What a step does, field by field ---------------------------------------------

  /** A failing step leads to the removal of the temporary file. */
  function PhaseAfter(s: State, e: Event): Phase
    requires Enabled(s, e) && !e.Begin? && !e.PowerLoss?
  {
    match e
    case OpenLock(_, ok) => if ok then Locked else Done(false)
    case CreateTemp(_, file, ok) => if ok then Created(file) else Failed
    case Write(id, _, ok) => var file := s.saves[id].phase.file; if ok then Written(file) else Failing(file)
    case Chmod(id, ok) => var file := s.saves[id].phase.file; if ok then Chmodded(file) else Failing(file)
    case Sync(id, ok) => var file := s.saves[id].phase.file; if ok then Synced(file) else Failing(file)
    case Close(id, ok) => var file := s.saves[id].phase.file; if ok then Closed(file) else Failing(file)
    case Rename(id, ok) => if ok then Renamed else Failing(s.saves[id].phase.file)
    case Remove(_, _) => Failed
    case Unlock(id) => Done(s.saves[id].phase.Renamed?)
    case Kill(_) => Dead
  }

  function SavesAfter(s: State, e: Event): map<nat, Save>
    requires Enabled(s, e)
  {
    if e.Begin? then s.saves[e.id := Save(e.snapshot, Waiting)]
    else if e.PowerLoss? then
      map id | id in s.saves :: if s.saves[id].phase.Done? then s.saves[id] else s.saves[id].(phase := Dead)
    else s.saves[e.id := s.saves[e.id].(phase := PhaseAfter(s, e))]
  }

  function FilesAfter(s: State, e: Event): map<nat, File>
    requires Enabled(s, e)
  {
    match e
    case CreateTemp(_, file, ok) => if ok then s.files[file := File("", false)] else s.files
    case Write(id, written, _) => s.files[s.saves[id].phase.file := File(written, false)]
    case Sync(id, ok) =>
      var file := s.saves[id].phase.file;
      if ok && file in s.files then s.files[file := s.files[file].(durable := true)] else s.files
    case PowerLoss(garbage, _) =>
      map f | f in s.files :: if s.files[f].durable || f !in garbage then s.files[f] else File(garbage[f], false)
    case _ => s.files
  }

  predicate Renames(e: Event) { e.Rename? && e.ok }

  function TargetAfter(s: State, e: Event): Option<nat>
    requires Enabled(s, e)
  {
    if Renames(e) then Some(s.saves[e.id].phase.file) else if e.PowerLoss? then e.back else s.target
  }

  function TempsAfter(s: State, e: Event): set<nat>
    requires Enabled(s, e)
  {
    match e
    case CreateTemp(_, file, ok) => if ok then s.temps + {file} else s.temps
    case Rename(id, ok) => if ok then s.temps - {s.saves[id].phase.file} else s.temps
    case Remove(id, ok) => if ok then s.temps - {s.saves[id].phase.file} else s.temps
    case _ => s.temps
  }

  function LockAfter(s: State, e: Event): Option<nat>
    requires Enabled(s, e)
  {
    match e
    case OpenLock(id, ok) => if ok && s.exclusive then Some(id) else s.lock
    case Unlock(_) => None
    case Kill(id) => if s.lock == Some(id) then None else s.lock
    case PowerLoss(_, _) => None
    case _ => s.lock
  }

  function Next(s: State, e: Event): State
    requires Enabled(s, e)
  {
    State(s.exclusive, FilesAfter(s, e), TargetAfter(s, e), if Renames(e) then s.earlier + {s.target} else s.earlier,
          TempsAfter(s, e), LockAfter(s, e), SavesAfter(s, e),
          if Renames(e) then s.committed + [e.id] else s.committed)
  }

  // ---- Runs -------------------------------------------------------------------------

  /** The key file as it was before the first save: absent, or durable with some content. */
  function Initial(initial: Start): State {
    var content := initial.content;
    State(initial.exclusive,
          if content.Some? then map[0 := File(content.value, true)] else map[],
          if content.Some? then Some(0) else None, {}, {}, None, map[], [])
  }

  /** Any list of events is a run: one that is not enabled when its turn comes does not happen. */
  function After(initial: Start, events: seq<Event>): State {
    if events == [] then Initial(initial)
    else
      var before := After(initial, events[..|events| - 1]);
      var e := events[|events| - 1];
      if Enabled(before, e) then Next(before, e) else before
  }

  // ---- Invariant --------------------------------------------------------------------

  /** The initial content, or the complete snapshot of a save that renamed. */
  ghost predicate Whole(s: State, initial: Start, data: Option<Bytes>) {
    data == initial.content || exists id :: id in s.committed && id in s.saves && data == Some(s.saves[id].snapshot)
  }

  /** An entry the target has or may get back is absent, or a durable and whole file. */
  ghost predicate GoodEntry(s: State, initial: Start, entry: Option<nat>) {
    if entry.None? then initial.content == None
    else entry.value in s.files && s.files[entry.value].durable && Whole(s, initial, Some(s.files[entry.value].data))
  }

  ghost predicate IsEntry(s: State, entry: Option<nat>) { entry == s.target || entry in s.earlier }

  ghost predicate TempInvariant(s: State, id: nat)
    requires id in s.saves
  {
    var phase := s.saves[id].phase;
    && (phase.HasTemp() ==> phase.file in s.files && phase.file in s.temps)
    && (phase.Complete() ==> s.files[phase.file].data == s.saves[id].snapshot)
    && (phase.Synced? || phase.Closed? ==> s.files[phase.file].durable)
  }

  ghost predicate EntriesGood(s: State, initial: Start) {
    forall entry | IsEntry(s, entry) :: GoodEntry(s, initial, entry)
  }

  /** Two saves never share a temporary file, whether or not the lock excludes them. */
  ghost predicate TempsApart(s: State) {
    forall i, j | i in s.saves && j in s.saves && i != j && s.saves[i].phase.HasTemp() && s.saves[j].phase.HasTemp() ::
      s.saves[i].phase.file != s.saves[j].phase.file
  }

  ghost predicate TempsGood(s: State) {
    && (forall id | id in s.saves :: TempInvariant(s, id))
    && (forall f | f in s.temps :: f in s.files && !IsEntry(s, Some(f)))
    && TempsApart(s)
  }

  /** The lock is held by the one process between lock and unlock; it plays no part elsewhere. */
  ghost predicate LockGood(s: State) {
    if s.exclusive then
      && (forall id | id in s.saves :: s.saves[id].phase.Critical() <==> s.lock == Some(id))
      && (s.lock.Some? ==> s.lock.value in s.saves)
    else s.lock == None
  }

  /** A save has renamed exactly if its phase says so; one that was killed may have. */
  ghost predicate Consistent(phase: Phase, renamed: bool) {
    match phase
    case Waiting => !renamed
    case Done(ok) => ok == renamed
    case Dead => true
    case _ => phase.Renamed? == renamed
  }

  ghost predicate HistoryGood(s: State) {
    && (forall id | id in s.saves :: Consistent(s.saves[id].phase, id in s.committed))
    && (forall id | id in s.committed :: id in s.saves)
  }

  ghost predicate Invariant(s: State, initial: Start) {
    EntriesGood(s, initial) && TempsGood(s) && LockGood(s) && HistoryGood(s)
  }

  // ---- Each part of the invariant is kept -------------------------------------------

  lemma WholeGrows(s: State, e: Event, initial: Start, data: Option<Bytes>)
    requires Enabled(s, e) && Whole(s, initial, data)
    ensures Whole(Next(s, e), initial, data)
  {
    hide PhaseAfter, FilesAfter, TempsAfter, LockAfter;
    if id :| id in s.committed && id in s.saves && data == Some(s.saves[id].snapshot) {
      assert id in Next(s, e).committed && Next(s, e).saves[id].snapshot == s.saves[id].snapshot;
    }
  }

  /** A durable file that is nobody's temporary file keeps its bytes. */
  lemma DurableStays(s: State, e: Event, f: nat)
    requires Enabled(s, e) && TempsGood(s) && f in s.files && s.files[f].durable && f !in s.temps
    ensures f in FilesAfter(s, e) && FilesAfter(s, e)[f] == s.files[f]
  {
    if e.Write? || e.Sync? {
      assert TempInvariant(s, e.id);
    }
  }

  lemma EntriesKept(s: State, e: Event, initial: Start, entry: Option<nat>)
    requires EntriesGood(s, initial) && TempsGood(s) && Enabled(s, e) && IsEntry(s, entry)
    ensures GoodEntry(Next(s, e), initial, entry)
  {
    assert GoodEntry(s, initial, entry);
    if entry.Some? {
      WholeGrows(s, e, initial, Some(s.files[entry.value].data));
      assert entry.value !in s.temps;
      DurableStays(s, e, entry.value);
    }
    hide FilesAfter, TempsAfter, LockAfter, SavesAfter, Whole, Enabled;
  }

  /** What a rename publishes is a whole file: the one its save wrote. */
  lemma RenamedIsGood(s: State, e: Event, initial: Start)
    requires TempsGood(s) && HistoryGood(s) && Enabled(s, e) && Renames(e)
    ensures GoodEntry(Next(s, e), initial, TargetAfter(s, e))
  {
    assert TempInvariant(s, e.id);
    assert e.id in Next(s, e).committed && Next(s, e).saves[e.id].snapshot == s.saves[e.id].snapshot;
  }

  lemma StepKeepsEntries(s: State, e: Event, initial: Start)
    requires EntriesGood(s, initial) && TempsGood(s) && HistoryGood(s) && Enabled(s, e)
    ensures EntriesGood(Next(s, e), initial)
  {
    var t := Next(s, e);
    forall entry | IsEntry(t, entry) ensures GoodEntry(t, initial, entry) {
      if Renames(e) && entry == TargetAfter(s, e) {
        RenamedIsGood(s, e, initial);
      } else {
        assert IsEntry(s, entry);
        hide Enabled, Next, EntriesGood, TempsGood, GoodEntry;
        EntriesKept(s, e, initial, entry);
      }
    }
  }

  /** A process's own temporary file after its step. */
  lemma OwnTemp(s: State, e: Event)
    requires TempsGood(s) && Enabled(s, e) && !e.Begin? && !e.PowerLoss?
    ensures TempInvariant(Next(s, e), e.id)
  {
    assert TempInvariant(s, e.id);
    hide LockAfter;
  }

  /** The steps of one process leave the temporary files of the others alone. */
  lemma OtherTemp(s: State, e: Event, id: nat)
    requires TempsGood(s) && Enabled(s, e) && id in SavesAfter(s, e)
    requires e.Begin? || e.PowerLoss? || e.id != id
    ensures TempInvariant(Next(s, e), id)
  {
    if !e.Begin? && !e.PowerLoss? {
      assert TempInvariant(s, e.id);
    }
    if id in s.saves {
      assert TempInvariant(s, id);
    }
    hide LockAfter;
  }

  /** A save has the temporary file it had before, or one that was not there. */
  lemma FileKept(s: State, e: Event, id: nat)
    requires TempsGood(s) && Enabled(s, e) && id in SavesAfter(s, e) && SavesAfter(s, e)[id].phase.HasTemp()
    ensures var file := SavesAfter(s, e)[id].phase.file;
            if e.CreateTemp? && e.id == id then file !in s.files
            else id in s.saves && s.saves[id].phase.HasTemp() && file == s.saves[id].phase.file && file in s.files
  {
    if id in s.saves {
      assert TempInvariant(s, id);
    }
  }

  lemma StepKeepsApart(s: State, e: Event)
    requires TempsGood(s) && Enabled(s, e)
    ensures TempsApart(Next(s, e))
  {
    var saves := SavesAfter(s, e);
    forall i, j | i in saves && j in saves && i != j && saves[i].phase.HasTemp() && saves[j].phase.HasTemp()
      ensures saves[i].phase.file != saves[j].phase.file
    {
      hide SavesAfter;
      FileKept(s, e, i);
      FileKept(s, e, j);
    }
    hide SavesAfter, FilesAfter, TempsAfter, LockAfter, TargetAfter, Enabled;
  }

  lemma EntriesExist(s: State, initial: Start)
    requires EntriesGood(s, initial)
    ensures forall f | IsEntry(s, Some(f)) :: f in s.files
  {
    forall f | IsEntry(s, Some(f)) ensures f in s.files {
      assert GoodEntry(s, initial, Some(f));
    }
  }

  /** A temporary file is never an entry of the target: a new file is none, and a renamed one leaves. */
  lemma StepKeepsTempFiles(s: State, e: Event, initial: Start)
    requires TempsGood(s) && EntriesGood(s, initial) && Enabled(s, e)
    ensures forall f | f in TempsAfter(s, e) :: f in FilesAfter(s, e) && !IsEntry(Next(s, e), Some(f))
  {
    EntriesExist(s, initial);
    if e.Rename? || e.Remove? {
      assert TempInvariant(s, e.id);
    }
    hide SavesAfter, PhaseAfter, LockAfter, EntriesGood;
  }

  lemma StepKeepsTemps(s: State, e: Event, initial: Start)
    requires TempsGood(s) && EntriesGood(s, initial) && Enabled(s, e)
    ensures TempsGood(Next(s, e))
  {
    StepKeepsApart(s, e);
    StepKeepsTempFiles(s, e, initial);
    forall id | id in SavesAfter(s, e) ensures TempInvariant(Next(s, e), id) {
      hide Enabled, TempsGood, EntriesGood, TempInvariant, Next, SavesAfter;
      if e.Begin? || e.PowerLoss? || e.id != id {
        OtherTemp(s, e, id);
      } else {
        OwnTemp(s, e);
      }
    }
    hide FilesAfter, TempsAfter, TargetAfter, SavesAfter, LockAfter, TempInvariant, TempsApart, Enabled;
  }

  lemma StepKeepsLock(s: State, e: Event)
    requires LockGood(s) && Enabled(s, e)
    ensures LockGood(Next(s, e))
  {
    hide FilesAfter, TempsAfter, TargetAfter;
  }

  lemma PhaseStaysConsistent(s: State, e: Event)
    requires Enabled(s, e) && !e.Begin? && !e.PowerLoss? && Consistent(s.saves[e.id].phase, e.id in s.committed)
    ensures Consistent(PhaseAfter(s, e), e.id in s.committed || Renames(e))
  {
  }

  /** A save that begins has not renamed, and one that is dead may or may not have. */
  lemma NewSaveIsConsistent()
    ensures Consistent(Waiting, false) && forall renamed :: Consistent(Dead, renamed)
  {
  }

  lemma StepKeepsHistory(s: State, e: Event)
    requires HistoryGood(s) && Enabled(s, e)
    ensures HistoryGood(Next(s, e))
  {
    hide PhaseAfter, FilesAfter, TempsAfter, TargetAfter, LockAfter, Consistent;
    if !e.Begin? && !e.PowerLoss? {
      PhaseStaysConsistent(s, e);
    }
    NewSaveIsConsistent();
  }

  lemma StepKeepsInvariant(s: State, e: Event, initial: Start)
    requires Invariant(s, initial) && Enabled(s, e)
    ensures Invariant(Next(s, e), initial)
  {
    hide Enabled, Next, EntriesGood, TempsGood, LockGood, HistoryGood;
    StepKeepsEntries(s, e, initial);
    StepKeepsTemps(s, e, initial);
    StepKeepsLock(s, e);
    StepKeepsHistory(s, e);
  }

  lemma {:induction false} InvariantAlwaysHolds(initial: Start, events: seq<Event>)
    ensures Invariant(After(initial, events), initial)
  {
    if events != [] {
      var before, e := After(initial, events[..|events| - 1]), events[|events| - 1];
      InvariantAlwaysHolds(initial, events[..|events| - 1]);
      if Enabled(before, e) {
        StepKeepsInvariant(before, e, initial);
      }
    }
  }

  // ---- What files can be found ------------------------------------------------------

  /** A file appears only when its creation succeeds, and then empty; its bytes change only when its own
      process writes it, or when power is lost before it was synced: then they may become anything. Files
      are synced by nothing but a successful sync of their own process. */
  lemma FilesChangeByTheirOwner(s: State, e: Event, f: nat)
    requires Enabled(s, e) && TempsGood(s)
    ensures var files := Next(s, e).files;
            && (f in s.files ==> f in files)
            && (f in files && f !in s.files ==> e.CreateTemp? && e.ok && e.file == f && files[f] == File("", false))
            && (f in files && f in s.files && files[f] != s.files[f] ==>
                  || (e.Write? && s.saves[e.id].phase == Created(f) && files[f] == File(e.written, false))
                  || (e.Sync? && e.ok && s.saves[e.id].phase == Chmodded(f) && files[f] == File(s.files[f].data, true))
                  || (e.PowerLoss? && !s.files[f].durable && f in e.garbage && files[f] == File(e.garbage[f], false)))
    ensures e.PowerLoss? && f in s.files && !s.files[f].durable && f in e.garbage ==>
              Next(s, e).files[f].data == e.garbage[f]
    ensures e.CreateTemp? && e.ok ==> e.file in Next(s, e).files
  {
    hide TempsAfter, LockAfter, SavesAfter, PhaseAfter, TargetAfter;
    if e.Write? || e.Sync? {
      assert TempInvariant(s, e.id);
    }
  }

  // ---- Main results -----------------------------------------------------------------

  /** Whatever happens, a reader finds the initial content or one writer's complete snapshot. */
  lemma TargetIsAlwaysWhole(initial: Start, events: seq<Event>)
    ensures var s := After(initial, events);
            || Content(s) == initial.content
            || exists id :: id in s.committed && id in s.saves && Content(s) == Some(s.saves[id].snapshot)
  {
    InvariantAlwaysHolds(initial, events);
    var s := After(initial, events);
    assert IsEntry(s, s.target) && GoodEntry(s, initial, s.target);
    assert Whole(s, initial, Content(s));
  }

  /** Where the platform's lock excludes others, at most one process is between lock and unlock. */
  lemma WritersExcludeEachOther(initial: Start, events: seq<Event>, i: nat, j: nat)
    requires initial.exclusive
    requires PhaseOf(After(initial, events), i).Critical() && PhaseOf(After(initial, events), j).Critical()
    ensures i == j
  {
    InvariantAlwaysHolds(initial, events);
    ExclusiveStays(initial, events);
  }

  lemma {:induction false} ExclusiveStays(initial: Start, events: seq<Event>)
    ensures After(initial, events).exclusive == initial.exclusive
  {
    if events != [] {
      ExclusiveStays(initial, events[..|events| - 1]);
    }
  }

  /** Where it does nothing, two processes can be there at once. */
  lemma WritersOverlapWithoutALock(initial: Start, a: Bytes, b: Bytes) returns (events: seq<Event>)
    requires !initial.exclusive
    ensures PhaseOf(After(initial, events), 1).Critical() && PhaseOf(After(initial, events), 2).Critical()
  {
    assert After(initial, []) == Initial(initial);
    AfterNext(initial, [], Begin(1, a));
    AfterNext(initial, [] + [Begin(1, a)], OpenLock(1, true));
    AfterNext(initial, [] + [Begin(1, a)] + [OpenLock(1, true)], Begin(2, b));
    AfterNext(initial, [] + [Begin(1, a)] + [OpenLock(1, true)] + [Begin(2, b)], OpenLock(2, true));
    events := [] + [Begin(1, a)] + [OpenLock(1, true)] + [Begin(2, b)] + [OpenLock(2, true)];
  }

  /** A save reports success if and only if its rename took place; an error path never renamed. */
  lemma ReportIsTruthful(initial: Start, events: seq<Event>, id: nat)
    requires PhaseOf(After(initial, events), id).Done?
    ensures PhaseOf(After(initial, events), id).ok <==> id in After(initial, events).committed
  {
    InvariantAlwaysHolds(initial, events);
  }

  /** Only a successful rename or a power loss changes what a reader finds. */
  lemma OnlyRenameChangesTheTarget(initial: Start, events: seq<Event>, e: Event)
    requires Enabled(After(initial, events), e) && !e.PowerLoss? && !(e.Rename? && e.ok)
    ensures Content(Next(After(initial, events), e)) == Content(After(initial, events))
  {
    InvariantAlwaysHolds(initial, events);
    var s := After(initial, events);
    assert IsEntry(s, s.target) && GoodEntry(s, initial, s.target);
    if !e.Begin? {
      assert TempInvariant(s, e.id);
    }
  }

  /** A rename publishes exactly the renaming process's snapshot. */
  lemma RenamePublishesTheSnapshot(initial: Start, events: seq<Event>, e: Event)
    requires Enabled(After(initial, events), e) && e.Rename? && e.ok
    ensures Content(Next(After(initial, events), e)) == Some(After(initial, events).saves[e.id].snapshot)
  {
    InvariantAlwaysHolds(initial, events);
    assert TempInvariant(After(initial, events), e.id);
  }

  // ---- What a power loss can undo ---------------------------------------------------

  /** The entry that the last rename made, or the one there was before any. */
  function LastEntry(initial: Start, events: seq<Event>): Option<nat> {
    if events == [] then Initial(initial).target
    else
      var before, e := After(initial, events[..|events| - 1]), events[|events| - 1];
      if Enabled(before, e) && e.Rename? && e.ok then Some(before.saves[e.id].phase.file)
      else LastEntry(initial, events[..|events| - 1])
  }

  /** Since the last rename, every power loss left the entry that was there. */
  predicate Undisturbed(initial: Start, events: seq<Event>) {
    events != [] ==>
      var before, e := After(initial, events[..|events| - 1]), events[|events| - 1];
      || (Enabled(before, e) && e.Rename? && e.ok)
      || (&& Undisturbed(initial, events[..|events| - 1])
          && (Enabled(before, e) && e.PowerLoss? ==> e.back == before.target))
  }

  lemma EntryAfterStep(s: State, e: Event, last: Option<nat>)
    requires Enabled(s, e) && !(e.Rename? && e.ok) && last !in s.earlier
    ensures last !in Next(s, e).earlier
    ensures Next(s, e).target == last <==> s.target == last && (e.PowerLoss? ==> e.back == s.target)
  {
  }

  /** The last rename stands if and only if no power loss since has brought an earlier entry back;
      once one has, it stays lost. */
  lemma {:induction false} LastRenameStandsIff(initial: Start, events: seq<Event>)
    ensures After(initial, events).target == LastEntry(initial, events) <==> Undisturbed(initial, events)
    ensures LastEntry(initial, events) !in After(initial, events).earlier
  {
    if events != [] {
      var before, e := After(initial, events[..|events| - 1]), events[|events| - 1];
      LastRenameStandsIff(initial, events[..|events| - 1]);
      if Enabled(before, e) {
        if e.Rename? && e.ok {
          InvariantAlwaysHolds(initial, events[..|events| - 1]);
          assert TempInvariant(before, e.id);
        } else {
          hide After, Enabled, Next;
          EntryAfterStep(before, e, LastEntry(initial, events[..|events| - 1]));
        }
      }
    }
  }

  /** What the last rename published, or the initial content. */
  function LastContent(s: State, initial: Start): Option<Bytes>
    requires forall id | id in s.committed :: id in s.saves
  {
    if s.committed == [] then initial.content else Some(s.saves[s.committed[|s.committed| - 1]].snapshot)
  }

  /** While the last rename stands the file holds what it published: so a save that reported success
      is there until the next rename or a power loss that undoes it. */
  lemma {:induction false} LastRenameWins(initial: Start, events: seq<Event>)
    requires Undisturbed(initial, events)
    ensures var s := After(initial, events);
            && (forall id | id in s.committed :: id in s.saves)
            && Content(s) == LastContent(s, initial)
  {
    InvariantAlwaysHolds(initial, events);
    if events != [] {
      var earlier, e := events[..|events| - 1], events[|events| - 1];
      var before := After(initial, earlier);
      if Enabled(before, e) && e.Rename? && e.ok {
        RenamePublishesTheSnapshot(initial, earlier, e);
      } else {
        LastRenameWins(initial, earlier);
        if Enabled(before, e) && !e.PowerLoss? {
          OnlyRenameChangesTheTarget(initial, earlier, e);
          CommittedKept(initial, earlier, e);
        } else if Enabled(before, e) {
          PowerLossKeepsTheEntry(initial, earlier, e);
        }
      }
    }
  }

  lemma CommittedKept(initial: Start, events: seq<Event>, e: Event)
    requires Enabled(After(initial, events), e) && !(e.Rename? && e.ok)
    ensures Next(After(initial, events), e).committed == After(initial, events).committed
    ensures forall id | id in After(initial, events).saves ::
              && id in Next(After(initial, events), e).saves
              && Next(After(initial, events), e).saves[id].snapshot == After(initial, events).saves[id].snapshot
  {
  }

  /** A power loss that leaves the entry leaves its bytes, which were synced before the rename. */
  lemma PowerLossKeepsTheEntry(initial: Start, events: seq<Event>, e: Event)
    requires Enabled(After(initial, events), e) && e.PowerLoss? && e.back == After(initial, events).target
    requires forall id | id in After(initial, events).committed :: id in After(initial, events).saves
    ensures var s, t := After(initial, events), Next(After(initial, events), e);
            && Content(t) == Content(s) && (forall id | id in t.committed :: id in t.saves)
            && LastContent(t, initial) == LastContent(s, initial)
  {
    InvariantAlwaysHolds(initial, events);
    var s := After(initial, events);
    assert IsEntry(s, s.target) && GoodEntry(s, initial, s.target);
    CommittedKept(initial, events, e);
  }

  lemma AfterNext(initial: Start, events: seq<Event>, e: Event)
    requires Enabled(After(initial, events), e)
    ensures After(initial, events + [e]) == Next(After(initial, events), e)
  {
    assert (events + [e])[..|events|] == events;
  }

  /** Every reported save can be lost: a process that renames, unlocks and reports success is followed
      by a power loss that brings back the entry from before, because the directory is not synced. */
  lemma ReportedSaveCanBeLost(initial: Start, events: seq<Event>, id: nat) returns (run: seq<Event>)
    requires PhaseOf(After(initial, events), id).Closed?
    ensures PhaseOf(After(initial, run), id) == Done(true)
    ensures Content(After(initial, run)) == Content(After(initial, events))
    ensures !Undisturbed(initial, run)
  {
    var s := After(initial, events);
    LossAfterReport(initial, events, id);
    LastRenameStandsIff(initial, events + [Rename(id, true)]);
    var renamed := events + [Rename(id, true)];
    var reported := renamed + [Unlock(id)];
    run := reported + [PowerLoss(map[], s.target)];
    hide Next, Content, PhaseOf, LastEntry, Undisturbed;
    AfterNext(initial, events, Rename(id, true));
    AfterNext(initial, renamed, Unlock(id));
    AfterNext(initial, reported, PowerLoss(map[], s.target));
    LossDisturbs(initial, reported, PowerLoss(map[], s.target));
  }

  /** A power loss that brings another entry back disturbs the run. */
  lemma LossDisturbs(initial: Start, events: seq<Event>, e: Event)
    requires Enabled(After(initial, events), e) && e.PowerLoss? && e.back != After(initial, events).target
    ensures !Undisturbed(initial, events + [e])
  {
    assert (events + [e])[..|events|] == events;
  }

  /** From a save about to rename: rename, unlock, and lose power with the old entry coming back. */
  lemma LossAfterReport(initial: Start, events: seq<Event>, id: nat)
    requires PhaseOf(After(initial, events), id).Closed?
    ensures var s := After(initial, events);
            var rename, unlock, loss := Rename(id, true), Unlock(id), PowerLoss(map[], s.target);
            && Enabled(s, rename) && Enabled(Next(s, rename), unlock)
            && Enabled(Next(Next(s, rename), unlock), loss) && Next(Next(s, rename), unlock).target != s.target
            && var t := Next(Next(Next(s, rename), unlock), loss);
               PhaseOf(t, id) == Done(true) && Content(t) == Content(s)
  {
    hide Next, After;
    var s := After(initial, events);
    NewFileIsNoEntry(initial, events, id);
    RenameAndUnlock(s, id);
    LossBringsBack(Next(Next(s, Rename(id, true)), Unlock(id)), s.target, id);
  }

  lemma NewFileIsNoEntry(initial: Start, events: seq<Event>, id: nat)
    requires PhaseOf(After(initial, events), id).Closed?
    ensures var s := After(initial, events);
            && (s.target.Some? ==> s.target.value in s.files)
            && s.target != Some(s.saves[id].phase.file)
  {
    hide After, LockGood, HistoryGood;
    InvariantAlwaysHolds(initial, events);
    var s := After(initial, events);
    assert TempInvariant(s, id) && IsEntry(s, s.target) && GoodEntry(s, initial, s.target);
  }

  lemma RenameAndUnlock(s: State, id: nat)
    requires PhaseOf(s, id).Closed?
    ensures Enabled(s, Rename(id, true)) && Enabled(Next(s, Rename(id, true)), Unlock(id))
    ensures var t := Next(Next(s, Rename(id, true)), Unlock(id));
            && t.target == Some(s.saves[id].phase.file) && s.target in t.earlier
            && t.files == s.files && PhaseOf(t, id) == Done(true)
  {
    hide LockAfter, TempsAfter;
  }

  lemma LossBringsBack(s: State, back: Option<nat>, id: nat)
    requires Enabled(s, PowerLoss(map[], back)) && PhaseOf(s, id) == Done(true)
    ensures var t := Next(s, PowerLoss(map[], back));
            && PhaseOf(t, id) == Done(true)
            && Content(t) == if back.Some? && back.value in s.files then Some(s.files[back.value].data) else None
  {
    hide LockAfter, TempsAfter;
  }

  // ---- One save, start to finish ----------------------------------------------------

  /** Which system call fails. */
  datatype Fault = NoFault | LockFault | CreateFault | WriteFault | ChmodFault | SyncFault | CloseFault | RenameFault

  lemma NewFileIsNotATemp(initial: Start, events: seq<Event>, file: nat)
    requires file !in After(initial, events).files
    ensures file !in After(initial, events).temps
  {
    InvariantAlwaysHolds(initial, events);
  }

  /** `base`, in which save `id` holds the lock, plus its temporary file. */
  function WithTemp(base: State, id: nat, phase: Phase, file: nat, data: File): State
    requires id in base.saves
  {
    At(base, id, phase).(files := base.files[file := data], temps := base.temps + {file})
  }

  /** `base` after save `id` failed and released the lock: the temporary file is gone, or orphaned if its
      removal failed too. */
  function GaveUp(base: State, id: nat, file: nat, data: File, removed: bool): State
    requires id in base.saves
  {
    At(base, id, Done(false)).(files := base.files[file := data], lock := None,
                               temps := if removed then base.temps else base.temps + {file})
  }

  function BegunFrom(base: State, id: nat, snapshot: Bytes, granted: bool): State {
    base.(saves := base.saves[id := Save(snapshot, if granted then Locked else Done(false))],
          lock := if granted && base.exclusive then Some(id) else base.lock)
  }

  function NotCreated(base: State, id: nat): State
    requires id in base.saves
  {
    At(base, id, Done(false)).(lock := None)
  }

  lemma CreateMakesTemp(base: State, id: nat, file: nat)
    requires Enabled(base, CreateTemp(id, file, true))
    ensures Next(base, CreateTemp(id, file, true)) == WithTemp(base, id, Created(file), file, File("", false))
  {
  }

  /** The calls on the temporary file, each from the phase before it. */
  predicate TempCall(e: Event, phase: Phase) {
    match e
    case Write(_, _, _) => phase.Created?
    case Chmod(_, _) => phase.Written?
    case Sync(_, _) => phase.Chmodded?
    case Close(_, _) => phase.Synced?
    case _ => false
  }

  function TempPhase(e: Event, phase: Phase): Phase
    requires TempCall(e, phase)
  {
    if !e.ok then Failing(phase.file)
    else
      match e
      case Write(_, _, _) => Written(phase.file)
      case Chmod(_, _) => Chmodded(phase.file)
      case Sync(_, _) => Synced(phase.file)
      case Close(_, _) => Closed(phase.file)
  }

  function TempData(e: Event, data: File): File {
    if e.Write? then File(e.written, false) else if e.Sync? && e.ok then data.(durable := true) else data
  }

  /** A call on the temporary file changes its phase and its bytes and nothing else. */
  lemma TempStep(base: State, id: nat, phase: Phase, data: File, e: Event)
    requires id in base.saves && TempCall(e, phase) && e.id == id
    requires e.Write? ==> e.written <= base.saves[id].snapshot && (e.ok ==> e.written == base.saves[id].snapshot)
    ensures var s := WithTemp(base, id, phase, phase.file, data);
            Enabled(s, e) && Next(s, e) == WithTemp(base, id, TempPhase(e, phase), phase.file, TempData(e, data))
  {
    var s := WithTemp(base, id, phase, phase.file, data);
    var t := Next(s, e);
    assert t.saves == base.saves[id := t.saves[id]];
    assert t.files == base.files[phase.file := t.files[phase.file]];
  }

  /** The file system, together with the run that led to its present state. */
  class Disk {
    var s: State
    ghost var initial: Start
    ghost var events: seq<Event>

    ghost predicate Valid()
      reads this
    {
      s == After(initial, events)
    }

    constructor (initial: Start)
      ensures Valid() && s == Initial(initial)
    {
      s := Initial(initial);
      this.initial, events := initial, [];
    }

    method Do(e: Event)
      requires Valid() && Enabled(s, e)
      modifies this
      ensures Valid() && s == Next(old(s), e) && initial == old(initial)
    {
      s := Next(s, e);
      assert (events + [e])[..|events|] == events;
      events := events + [e];
    }

    /** Removes the temporary file, best effort, and releases the lock. */
    method GiveUp(base: State, id: nat, file: nat, data: File, removed: bool)
      requires Valid() && id in base.saves && s == WithTemp(base, id, Failing(file), file, data) && file !in base.temps
      modifies this
      ensures Valid() && initial == old(initial) && s == GaveUp(base, id, file, data, removed)
    {
      Do(Remove(id, removed));
      Do(Unlock(id));
      assert s.saves == base.saves[id := base.saves[id].(phase := Done(false))];
      assert base.temps + {file} - {file} == base.temps;
    }

    /** One call on the temporary file; if it fails, the save gives up. */
    method Call(base: State, id: nat, phase: Phase, data: File, e: Event, removed: bool) returns (ok: bool)
      requires Valid() && id in base.saves && TempCall(e, phase) && e.id == id && phase.file !in base.temps
      requires s == WithTemp(base, id, phase, phase.file, data)
      requires e.Write? ==> e.written <= base.saves[id].snapshot && (e.ok ==> e.written == base.saves[id].snapshot)
      modifies this
      ensures Valid() && initial == old(initial) && ok == e.ok
      ensures s == if ok then WithTemp(base, id, TempPhase(e, phase), phase.file, TempData(e, data))
                   else GaveUp(base, id, phase.file, TempData(e, data), removed)
    {
      hide Enabled, Next, WithTemp, TempData;
      TempStep(base, id, phase, data, e);
      Do(e);
      if !e.ok {
        GiveUp(base, id, phase.file, TempData(e, data), removed);
      }
      ok := e.ok;
    }

    /** Writes, protects, syncs and closes the new temporary file, each call only after the one before. */
    method FillTemp(base: State, id: nat, file: nat, fault: Fault, written: Bytes, removed: bool) returns (ok: bool)
      requires Valid() && id in base.saves && file !in base.temps && written <= base.saves[id].snapshot
      requires s == WithTemp(base, id, Created(file), file, File("", false))
      modifies this
      ensures Valid()
      ensures ok <==> fault == NoFault || fault == RenameFault || fault == LockFault || fault == CreateFault
      ensures ok ==> s == WithTemp(base, id, Closed(file), file, File(base.saves[id].snapshot, true))
      ensures !ok ==> exists data :: s == GaveUp(base, id, file, data, removed)
    {
      hide Valid, WithTemp, GaveUp, Enabled, Next, After;
      var snapshot := base.saves[id].snapshot;
      var bytes := if fault == WriteFault then written else snapshot;
      ok := Call(base, id, Created(file), File("", false), Write(id, bytes, fault != WriteFault), removed);
      if !ok { return; }
      ok := Call(base, id, Written(file), File(snapshot, false), Chmod(id, fault != ChmodFault), removed);
      if !ok { return; }
      ok := Call(base, id, Chmodded(file), File(snapshot, false), Sync(id, fault != SyncFault), removed);
      if !ok { return; }
      ok := Call(base, id, Synced(file), File(snapshot, true), Close(id, fault != CloseFault), removed);
    }

    /** Creates and fills the temporary file, under the lock. A failure leaves the target and the other
        files alone and the lock free. */
    method WriteTemp(id: nat, file: nat, fault: Fault, written: Bytes, removed: bool) returns (ok: bool)
      requires Valid() && PhaseOf(s, id).Locked? && file !in s.files && written <= s.saves[id].snapshot
      modifies this
      ensures Valid()
      ensures ok <==> fault == NoFault || fault == RenameFault || fault == LockFault
      ensures ok ==> s == WithTemp(old(s), id, Closed(file), file, File(old(s).saves[id].snapshot, true))
      ensures !ok ==> s == NotCreated(old(s), id) || exists data :: s == GaveUp(old(s), id, file, data, removed)
    {
      NewFileIsNotATemp(initial, events, file);
      var base := s;
      if fault == CreateFault {
        FailToCreate(id, file);
        return false;
      }
      CreateMakesTemp(base, id, file);
      Do(CreateTemp(id, file, true));
      hide Valid, WithTemp, GaveUp, NotCreated, Enabled, Next, After;
      ok := FillTemp(base, id, file, fault, written, removed);
    }

    method FailToCreate(id: nat, file: nat)
      requires Valid() && PhaseOf(s, id).Locked? && file !in s.files
      modifies this
      ensures Valid() && initial == old(initial) && s == NotCreated(old(s), id)
    {
      Do(CreateTemp(id, file, false));
      Do(Unlock(id));
      assert s.saves == old(s).saves[id := old(s).saves[id].(phase := Done(false))];
    }

    /** Renames the finished temporary file over the target and releases the lock. */
    method Publish(base: State, id: nat, file: nat, data: File, fault: Fault, removed: bool) returns (ok: bool)
      requires Valid() && id in base.saves && s == WithTemp(base, id, Closed(file), file, data) && file !in base.temps
      requires file !in base.files && (base.target.Some? ==> base.target.value in base.files)
      modifies this
      ensures Valid() && s.lock == None && PhaseOf(s, id) == Done(ok)
      ensures ok <==> fault != RenameFault
      ensures ok ==> Content(s) == Some(data.data) && s.committed == base.committed + [id]
      ensures !ok ==> s.target == base.target && Content(s) == Content(base) && s.committed == base.committed
      ensures s.temps == base.temps || (!ok && !removed && s.temps == base.temps + {file})
    {
      Do(Rename(id, fault != RenameFault));
      if fault == RenameFault {
        assert s.saves == base.saves[id := base.saves[id].(phase := Failing(file))];
        GiveUp(base, id, file, data, removed);
        return false;
      }
      assert s.temps == base.temps;
      Do(Unlock(id));
      return true;
    }

    /** Takes the snapshot and the lock; without the lock the save reports the error. */
    method BeginLocked(id: nat, snapshot: Bytes, granted: bool) returns (ok: bool)
      requires Valid() && s.lock == None && id !in s.saves
      modifies this
      ensures Valid() && ok == granted && s == BegunFrom(old(s), id, snapshot, granted)
    {
      Do(Begin(id, snapshot));
      Do(OpenLock(id, granted));
      ok := granted;
    }

    /** With the lock free: success publishes the snapshot, any failure leaves the target as it
        was, and no temporary file stays behind unless its removal fails too. */
    method SaveLocked(id: nat, snapshot: Bytes, file: nat, fault: Fault, written: Bytes, removed: bool)
      returns (ok: bool)
      requires Valid() && s.lock == None && id !in s.saves && file !in s.files && written <= snapshot
      modifies this
      ensures Valid() && s.lock == None && PhaseOf(s, id) == Done(ok)
      ensures ok <==> fault == NoFault
      ensures ok ==> Content(s) == Some(snapshot)
      ensures !ok ==> s.target == old(s.target) && Content(s) == old(Content(s))
      ensures s.temps == old(s.temps) || (!ok && !removed && s.temps == old(s.temps) + {file})
      ensures s.committed == if ok then old(s.committed) + [id] else old(s.committed)
    {
      NewFileIsNotATemp(initial, events, file);
      TargetExists();
      ok := BeginLocked(id, snapshot, fault != LockFault);
      if !ok { return; }
      var base := s;
      hide Enabled, Next, After, Valid;
      ok := WriteTemp(id, file, fault, written, removed);
      if ok {
        ok := Publish(base, id, file, File(snapshot, true), fault, removed);
      }
    }

    lemma TargetExists()
      requires Valid()
      ensures s.target.Some? ==> s.target.value in s.files
    {
      InvariantAlwaysHolds(initial, events);
      assert s.target.Some? ==> GoodEntry(s, initial, s.target);
    }
  }
}
