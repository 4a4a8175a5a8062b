/** The engine under concurrency and crashes. Tasks call `transition`, wait for the lock, run actions
    that may suspend, commit and persist; the process may die between any two steps, also in the middle
    of writing a file. Mutual exclusion is not built into the steps: it is proved. */
module Machine {
  import opened Text
  import opened Filter
  import opened Chart

  // ---------- States ----------

  /** Where a `transition` call stands. `started` says that the `k`-th action is suspended. */
  datatype Phase =
    | Waiting(ev: Event)
    | Acting(run: Run, target: string, actions: seq<Action>, k: nat, started: bool)
    | Saving(result: TransitionResult)
    | Finished(result: TransitionResult)

  datatype Stage = Opening | Filling | Renaming

  /** A `persist` in progress, by a task or, at shutdown, by the host. It contains no suspension, so no
      other task runs until it ends. */
  datatype Writer = Writer(doc: Document, outcome: DiskOutcome, stage: Stage, owner: Option<nat>)

  /** The same engine driven by one caller at a time. */
  datatype Serial = Serial(core: Core, disk: Disk, effects: seq<Effect>, results: seq<TransitionResult>)

  /** One acquisition of the lock: the event and everything its transition learnt from outside. */
  datatype Acquisition = Acquisition(ev: Event, o: Oracle)

  datatype Sys = Sys(
    core: Core, disk: Disk, effects: seq<Effect>,
    tasks: map<nat, Phase>, lock: Option<nat>, writer: Option<Writer>,
    results: seq<TransitionResult>,
    // history: the engine at the start of this process or at its last reload, the acquisitions since
    // then, whether the host forced a persist since then, the documents of all persist calls, those whose
    // rename took effect, and the state file found first
    base: Serial, log: seq<Acquisition>, forced: bool,
    persisted: seq<Document>, renamed: seq<Document>, firstTarget: File)

  function Fresh(cfg: Config, now: int): Core {
    Core(cfg.initial, cfg.initialContext, now)
  }

  function Init(cfg: Config, disk: Disk, now: int): Sys {
    var core := Fresh(cfg, now);
    Sys(core, disk, [], map[], None, None, [], Serial(core, disk, [], []), [], false, [], [], disk.target)
  }

  // ---------- Steps ----------

  datatype Step =
    | Arrive(t: nat, ev: Event)
    | Abandon(t: nat)
    | Acquire(t: nat, o: Oracle)
    | StartNext(t: nat)
    | Resume(t: nat)
    | Commit(t: nat)
    | ForcePersist(updatedAt: int, outcome: DiskOutcome)
    | Write
    | Crash(now: int, cutsChar: bool)
    | Reload(ignoreCorrupt: bool, backupWorks: bool, now: int)

  /** When a step can happen. Nothing here says that the acting task holds the lock. */
  predicate Enabled(cfg: Config, s: Sys, step: Step) {
    match step
    case Arrive(t, _) => s.writer.None? && t !in s.tasks
    case Abandon(t) => s.writer.None? && t in s.tasks && s.tasks[t].Waiting?
    case Acquire(t, _) => s.writer.None? && s.lock.None? && t in s.tasks && s.tasks[t].Waiting?
    case StartNext(t) => s.writer.None? && t in s.tasks && s.tasks[t].Acting? && !s.tasks[t].started
                         && s.tasks[t].k < |s.tasks[t].actions|
    case Resume(t) => s.writer.None? && t in s.tasks && s.tasks[t].Acting? && s.tasks[t].started
                      && s.tasks[t].k < |s.tasks[t].actions|
    case Commit(t) => s.writer.None? && t in s.tasks && s.tasks[t].Acting? && !s.tasks[t].started
                      && s.tasks[t].k == |s.tasks[t].actions|
    case ForcePersist(_, _) => s.writer.None? && cfg.persistent
    case Write => s.writer.Some?
    case Crash(_, _) => true
    case Reload(_, _, _) => s.writer.None? && s.lock.None?
  }

  /** Leaving `async with`: the lock is free again and the task has its result. */
  function Release(s: Sys, t: nat, result: TransitionResult): Sys {
    s.(tasks := s.tasks[t := Finished(result)], lock := None, results := s.results + [result])
  }

  function FailureResult(status: Status): TransitionResult {
    if status == Raised then Exception else NoMatch(None, NoDetails)
  }

  function Apply(cfg: Config, s: Sys, step: Step): Sys
    requires Enabled(cfg, s, step)
  {
    match step
    case Arrive(t, ev) => s.(tasks := s.tasks[t := Waiting(ev)])
    case Abandon(t) => s.(tasks := s.tasks - {t})
    case Acquire(t, o) => ApplyAcquire(cfg, s, t, o)
    case StartNext(t) =>
      var p := s.tasks[t];
      var out := StartAction(p.run, p.actions[p.k], p.k, s.core.context);
      var s' := s.(core := s.core.(context := out.context), effects := s.effects + out.effects);
      if out.status != Done then Release(s', t, FailureResult(out.status))
      else s'.(tasks := s.tasks[t := p.(started := true)])
    case Resume(t) =>
      var p := s.tasks[t];
      var out := FinishAction(p.run, p.actions[p.k], p.k, s.core.context);
      var s' := s.(core := s.core.(context := out.context), effects := s.effects + out.effects);
      if out.status != Done then Release(s', t, FailureResult(out.status))
      else s'.(tasks := s.tasks[t := p.(started := false, k := p.k + 1)])
    case Commit(t) =>
      var p := s.tasks[t];
      var core := Core(p.target, s.core.context, p.run.o.enteredClock);
      var s' := s.(core := core);
      if !cfg.persistent then Release(s', t, Matched(p.target))
      else
        BeginWrite(s'.(tasks := s.tasks[t := Saving(Matched(p.target))]),
                   Writer(DocumentOf(cfg, core, p.run.o.updatedClock), p.run.o.disk, Opening, Some(t)))
    case ForcePersist(updatedAt, outcome) =>
      BeginWrite(s.(forced := true), Writer(DocumentOf(cfg, s.core, updatedAt), outcome, Opening, None))
    case Write => ApplyWrite(s)
    case Crash(now, cutsChar) =>
      var core, disk := Fresh(cfg, now), CutDisk(s, cutsChar);
      s.(core := core, disk := disk, tasks := map[], lock := None, writer := None,
         base := Serial(core, disk, s.effects, s.results), log := [], forced := false)
    case Reload(ignoreCorrupt, backupWorks, now) =>
      var (core, disk, _) := Restore(cfg, s.core, s.disk, ignoreCorrupt, backupWorks, now);
      s.(core := core, disk := disk, base := Serial(core, disk, s.effects, s.results), log := [], forced := false)
  }

  /** The files after a crash: what was being written is cut off, perhaps inside a character. */
  function CutDisk(s: Sys, cutsChar: bool): Disk {
    if s.writer.Some? && s.writer.value.stage == Filling then s.disk.(tmp := Torn(cutsChar)) else s.disk
  }

  /** Taking the lock and scanning the entries happen without a suspension in between. */
  function ApplyAcquire(cfg: Config, s: Sys, t: nat, o: Oracle): Sys
    requires Enabled(cfg, s, Acquire(t, o))
  {
    var ev := s.tasks[t].ev;
    var s' := s.(log := s.log + [Acquisition(ev, o)]);
    var entries := EntriesFor(cfg, s.core.state, ev.kind);
    match DecisionOf(cfg, s.core, ev, o)
    case Fire(index, target) =>
      ScanFires(RunOf(cfg, s.core, ev, o), s.core.context, entries, 0);
      s'.(lock := Some(t),
          tasks := s.tasks[t := Acting(RunOf(cfg, s.core, ev, o), target, FiredActions(cfg, entries, index, target), 0, false)])
    case _ => Release(s', t, Transition(cfg, s.core, s.disk, ev, o).result)
  }

  function BeginWrite(s: Sys, w: Writer): Sys {
    s.(writer := Some(w), persisted := s.persisted + [w.doc])
  }

  /** One step of a persist: truncate the file beside the target, fill it, rename it. */
  function ApplyWrite(s: Sys): Sys
    requires s.writer.Some?
  {
    var w := s.writer.value;
    var s' := s.(disk := DiskStep(w, s.disk), renamed := s.renamed + RenamedBy(w), writer := NextStage(w));
    if s'.writer.None? then EndWrite(s', w) else s'
  }

  function DiskStep(w: Writer, disk: Disk): Disk {
    match (w.stage, w.outcome)
    case (Opening, OpenFailed) => disk
    case (Opening, _) => disk.(tmp := Torn(false))
    case (Filling, WriteFailed(cutsChar)) => disk.(tmp := Torn(cutsChar))
    case (Filling, _) => disk.(tmp := Whole(w.doc))
    case (Renaming, Saved) => disk.(target := disk.tmp, tmp := Absent)
    case (Renaming, _) => disk
  }

  /** The writer after its step; `None` when the persist is over. */
  function NextStage(w: Writer): Option<Writer> {
    match w.stage
    case Opening => if w.outcome == OpenFailed then None else Some(w.(stage := Filling))
    case Filling => if w.outcome.WriteFailed? then None else Some(w.(stage := Renaming))
    case Renaming => None
  }

  function RenamedBy(w: Writer): seq<Document> {
    if w.stage == Renaming && w.outcome == Saved then [w.doc] else []
  }

  function EndWrite(s: Sys, w: Writer): Sys {
    if w.owner.Some? && w.owner.value in s.tasks && s.tasks[w.owner.value].Saving?
    then Release(s, w.owner.value, s.tasks[w.owner.value].result)
    else s
  }

  /** A whole run; `None` when one of its steps is not possible. */
  function Exec(cfg: Config, s: Sys, steps: seq<Step>): Option<Sys>
    decreases |steps|
  {
    if steps == [] then Some(s)
    else if !Enabled(cfg, s, steps[0]) then None
    else Exec(cfg, Apply(cfg, s, steps[0]), steps[1..])
  }

  // ---------- The serial engine ----------

  function SerialStep(cfg: Config, z: Serial, a: Acquisition): Serial {
    var t := Transition(cfg, z.core, z.disk, a.ev, a.o);
    Serial(t.core, t.disk, z.effects + t.effects, z.results + [t.result])
  }

  /** The acquisitions one after another, each running to its end before the next begins. */
  function Replay(cfg: Config, z: Serial, log: seq<Acquisition>): Serial
    decreases |log|
  {
    if log == [] then z else SerialStep(cfg, Replay(cfg, z, log[..|log| - 1]), log[|log| - 1])
  }

  // ---------- What the engine will be once the holder of the lock is done ----------

  function Resumed(run: Run, actions: seq<Action>, k: nat, context: Context): Outcome
    requires k < |actions|
  {
    var out := FinishAction(run, actions[k], k, context);
    if out.status != Done then out else After(out.effects, RunActions(run, actions, k + 1, out.context))
  }

  function Rest(run: Run, actions: seq<Action>, k: nat, started: bool, context: Context): Outcome
    requires k <= |actions| && (started ==> k < |actions|)
  {
    if started then Resumed(run, actions, k, context) else RunActions(run, actions, k, context)
  }

  /** The file beside the target is as the writer's stage wants it. */
  predicate WriterFits(w: Writer, disk: Disk) {
    match w.stage
    case Opening => true
    case Filling => w.outcome != OpenFailed && disk.tmp == Torn(false)
    case Renaming => (w.outcome == Saved || w.outcome == ReplaceFailed) && disk.tmp == Whole(w.doc)
  }

  /** The steps of a writer lead to the disk its outcome says. */
  lemma WriterGoesOn(w: Writer, disk: Disk)
    requires WriterFits(w, disk)
    ensures match NextStage(w)
            case None => DiskStep(w, disk) == Written(w.doc, w.outcome, disk)
            case Some(v) =>
              && v.doc == w.doc && v.outcome == w.outcome && v.owner == w.owner
              && WriterFits(v, DiskStep(w, disk))
              && Written(w.doc, w.outcome, DiskStep(w, disk)) == Written(w.doc, w.outcome, disk)
  {
  }

  predicate GoodPhase(cfg: Config, core: Core, p: Phase) {
    p.Acting? ==>
      && p.run.cfg == cfg && p.run.state == core.state && p.run.enteredAt == core.enteredAt
      && p.k <= |p.actions| && (p.started ==> p.k < |p.actions|)
  }

  predicate Critical(p: Phase) {
    p.Acting? || p.Saving?
  }

  ghost predicate LockInvariant(cfg: Config, s: Sys) {
    && (s.lock.Some? ==> s.lock.value in s.tasks)
    && (forall t :: t in s.tasks ==> (Critical(s.tasks[t]) <==> s.lock == Some(t)))
    && (forall t :: t in s.tasks ==> GoodPhase(cfg, s.core, s.tasks[t]))
    && (forall t :: t in s.tasks && s.tasks[t].Saving? ==> s.writer.Some? && s.writer.value.owner == Some(t))
    && (s.writer.Some? && s.writer.value.owner.Some? ==>
          s.lock == s.writer.value.owner && s.tasks[s.lock.value].Saving?)
    && (s.writer.Some? && s.writer.value.owner.None? ==> s.forced)
  }

  /** The serial state the machine stands for: its own, with the lock holder's transition completed. */
  function Flush(cfg: Config, s: Sys): Serial
    requires s.lock.Some? ==> s.lock.value in s.tasks && GoodPhase(cfg, s.core, s.tasks[s.lock.value])
  {
    if s.lock.None? then Serial(s.core, s.disk, s.effects, s.results) else
    match s.tasks[s.lock.value]
    case Acting(run, target, actions, k, started) =>
      var c := Conclude(cfg, s.core, s.disk, target, run.o, Rest(run, actions, k, started, s.core.context));
      Serial(c.core, c.disk, s.effects + c.effects, s.results + [c.result])
    case Saving(result) =>
      var disk := if s.writer.Some? then Written(s.writer.value.doc, s.writer.value.outcome, s.disk) else s.disk;
      Serial(s.core, disk, s.effects, s.results + [result])
    case _ => Serial(s.core, s.disk, s.effects, s.results)
  }

  /** Equal engines; equal files as well unless the host forced a persist in between. */
  ghost predicate SameSerial(a: Serial, b: Serial, forced: bool) {
    a.core == b.core && a.effects == b.effects && a.results == b.results && (!forced ==> a.disk == b.disk)
  }

  ghost predicate Linear(cfg: Config, s: Sys) {
    LockInvariant(cfg, s) && SameSerial(Flush(cfg, s), Replay(cfg, s.base, s.log), s.forced)
  }

  // ---------- Every step keeps the machine linear ----------

  /** Running the actions from `k` on is starting the `k`-th and resuming it. */
  lemma RunIsStartThenResume(run: Run, actions: seq<Action>, k: nat, context: Context)
    requires k < |actions|
    ensures var out := StartAction(run, actions[k], k, context);
            RunActions(run, actions, k, context) ==
            if out.status != Done then out else After(out.effects, Resumed(run, actions, k, out.context))
  {
    hide StartAction, FinishAction;
    var out := StartAction(run, actions[k], k, context);
    if out.status == Done {
      var fin := FinishAction(run, actions[k], k, out.context);
      if fin.status == Done {
        AfterTwice(out.effects, fin.effects, RunActions(run, actions, k + 1, fin.context));
      }
    }
  }

  /** The part of a conclusion that depends on effects already made. */
  lemma ConcludeAfter(cfg: Config, core: Core, context: Context, disk: Disk, target: string, o: Oracle,
                      effects: seq<Effect>, out: Outcome)
    ensures var a, b := Conclude(cfg, core, disk, target, o, After(effects, out)),
                        Conclude(cfg, core.(context := context), disk, target, o, out);
            a == b.(effects := effects + b.effects)
  {
  }

  lemma ReplayStep(cfg: Config, z: Serial, log: seq<Acquisition>, a: Acquisition)
    ensures Replay(cfg, z, log + [a]) == SerialStep(cfg, Replay(cfg, z, log), a)
  {
    assert (log + [a])[..|log + [a]| - 1] == log;
  }

  lemma AcquireKeepsLock(cfg: Config, s: Sys, t: nat, o: Oracle)
    requires LockInvariant(cfg, s) && Enabled(cfg, s, Acquire(t, o))
    ensures LockInvariant(cfg, ApplyAcquire(cfg, s, t, o))
  {
    hide DecisionOf, Transition, FiredActions, EntriesFor;
  }

  lemma AcquireFlush(cfg: Config, s: Sys, t: nat, o: Oracle)
    requires LockInvariant(cfg, s) && Enabled(cfg, s, Acquire(t, o))
    requires LockInvariant(cfg, ApplyAcquire(cfg, s, t, o))
    ensures Flush(cfg, ApplyAcquire(cfg, s, t, o))
         == SerialStep(cfg, Serial(s.core, s.disk, s.effects, s.results), Acquisition(s.tasks[t].ev, o))
  {
    hide DecisionOf, RunActions, PersistTo, FiredActions, EntriesFor, LockInvariant;
    assert s.effects + [] == s.effects;
  }

  lemma AcquireIsLinear(cfg: Config, s: Sys, t: nat, o: Oracle)
    requires Linear(cfg, s) && Enabled(cfg, s, Acquire(t, o))
    ensures Linear(cfg, Apply(cfg, s, Acquire(t, o)))
  {
    AcquireKeepsLock(cfg, s, t, o);
    AcquireFlush(cfg, s, t, o);
    var z := Replay(cfg, s.base, s.log);
    ReplayStep(cfg, s.base, s.log, Acquisition(s.tasks[t].ev, o));
    TransitionIgnoresDisk(cfg, s.core, s.disk, z.disk, s.tasks[t].ev, o);
    hide Transition, DecisionOf, LockInvariant, Replay;
    assert Flush(cfg, s) == Serial(s.core, s.disk, s.effects, s.results);
  }

  /** Apart from the disk it leaves, a transition does not depend on the disk. */
  lemma TransitionIgnoresDisk(cfg: Config, core: Core, a: Disk, b: Disk, ev: Event, o: Oracle)
    ensures Transition(cfg, core, a, ev, o) == Transition(cfg, core, b, ev, o).(disk := Transition(cfg, core, a, ev, o).disk)
  {
    hide DecisionOf, RunActions, PersistTo, EntriesFor, FiredActions;
  }

  lemma StartIsLinear(cfg: Config, s: Sys, t: nat)
    requires Linear(cfg, s) && Enabled(cfg, s, StartNext(t))
    ensures Linear(cfg, Apply(cfg, s, StartNext(t)))
  {
    StartKeepsLock(cfg, s, t);
    StartFlushes(cfg, s, t);
    hide Flush, Apply, Replay, LockInvariant;
  }

  lemma StartKeepsLock(cfg: Config, s: Sys, t: nat)
    requires LockInvariant(cfg, s) && Enabled(cfg, s, StartNext(t))
    ensures var s' := Apply(cfg, s, StartNext(t));
            LockInvariant(cfg, s') && s'.base == s.base && s'.log == s.log && s'.forced == s.forced
  {
    hide StartAction, FinishAction;
    assert Critical(s.tasks[t]);
  }

  lemma StartFlushes(cfg: Config, s: Sys, t: nat)
    requires LockInvariant(cfg, s) && Enabled(cfg, s, StartNext(t)) && LockInvariant(cfg, Apply(cfg, s, StartNext(t)))
    ensures Flush(cfg, Apply(cfg, s, StartNext(t))) == Flush(cfg, s)
  {
    var p := s.tasks[t];
    assert Critical(p) && s.lock == Some(t);
    RunIsStartThenResume(p.run, p.actions, p.k, s.core.context);
    hide StartAction, FinishAction, RunActions, PersistTo, LockInvariant;
    var out := StartAction(p.run, p.actions[p.k], p.k, s.core.context);
    if out.status == Done {
      var rest := Resumed(p.run, p.actions, p.k, out.context);
      ConcludeAfter(cfg, s.core, out.context, s.disk, p.target, p.run.o, out.effects, rest);
      EffectsAssociate(s.effects, out.effects, Conclude(cfg, s.core.(context := out.context), s.disk, p.target, p.run.o, rest).effects);
    }
  }

  lemma ResumeIsLinear(cfg: Config, s: Sys, t: nat)
    requires Linear(cfg, s) && Enabled(cfg, s, Resume(t))
    ensures Linear(cfg, Apply(cfg, s, Resume(t)))
  {
    ResumeKeepsLock(cfg, s, t);
    ResumeFlushes(cfg, s, t);
    hide Flush, Apply, Replay, LockInvariant;
  }

  lemma ResumeKeepsLock(cfg: Config, s: Sys, t: nat)
    requires LockInvariant(cfg, s) && Enabled(cfg, s, Resume(t))
    ensures var s' := Apply(cfg, s, Resume(t));
            LockInvariant(cfg, s') && s'.base == s.base && s'.log == s.log && s'.forced == s.forced
  {
    hide StartAction, FinishAction;
    assert Critical(s.tasks[t]);
  }

  lemma ResumeFlushes(cfg: Config, s: Sys, t: nat)
    requires LockInvariant(cfg, s) && Enabled(cfg, s, Resume(t)) && LockInvariant(cfg, Apply(cfg, s, Resume(t)))
    ensures Flush(cfg, Apply(cfg, s, Resume(t))) == Flush(cfg, s)
  {
    var p := s.tasks[t];
    assert Critical(p) && s.lock == Some(t);
    hide StartAction, FinishAction, RunActions, PersistTo, LockInvariant;
    var out := FinishAction(p.run, p.actions[p.k], p.k, s.core.context);
    var rest := RunActions(p.run, p.actions, p.k + 1, out.context);
    var whole := if out.status != Done then out else After(out.effects, rest);
    assert Resumed(p.run, p.actions, p.k, s.core.context) == whole;
    var c := Conclude(cfg, s.core, s.disk, p.target, p.run.o, whole);
    assert Flush(cfg, s) == Serial(c.core, c.disk, s.effects + c.effects, s.results + [c.result]);
    if out.status == Done {
      hide Resumed;
      var d := Conclude(cfg, s.core.(context := out.context), s.disk, p.target, p.run.o, rest);
      ConcludeAfter(cfg, s.core, out.context, s.disk, p.target, p.run.o, out.effects, rest);
      EffectsAssociate(s.effects, out.effects, d.effects);
      assert Flush(cfg, Apply(cfg, s, Resume(t))) == Serial(d.core, d.disk, (s.effects + out.effects) + d.effects, s.results + [d.result]);
      hide Flush, Apply, Conclude, After;
    } else {
      assert Flush(cfg, Apply(cfg, s, Resume(t))) == Flush(cfg, s);
    }
  }

  lemma EffectsAssociate(a: seq<Effect>, b: seq<Effect>, c: seq<Effect>)
    ensures a + (b + c) == (a + b) + c
  {
  }

  lemma RunActionsEnd(run: Run, actions: seq<Action>, context: Context)
    ensures RunActions(run, actions, |actions|, context) == Outcome(context, [], Done)
  {
  }

  lemma CommitIsLinear(cfg: Config, s: Sys, t: nat)
    requires Linear(cfg, s) && Enabled(cfg, s, Commit(t))
    ensures Linear(cfg, Apply(cfg, s, Commit(t)))
  {
    CommitKeepsLock(cfg, s, t);
    CommitFlushes(cfg, s, t);
    hide Flush, Apply, Replay, LockInvariant;
  }

  lemma CommitKeepsLock(cfg: Config, s: Sys, t: nat)
    requires LockInvariant(cfg, s) && Enabled(cfg, s, Commit(t))
    ensures var s' := Apply(cfg, s, Commit(t));
            LockInvariant(cfg, s') && s'.base == s.base && s'.log == s.log && s'.forced == s.forced
  {
    hide DocumentOf;
    assert Critical(s.tasks[t]);
  }

  lemma CommitFlushes(cfg: Config, s: Sys, t: nat)
    requires LockInvariant(cfg, s) && Enabled(cfg, s, Commit(t)) && LockInvariant(cfg, Apply(cfg, s, Commit(t)))
    ensures Flush(cfg, Apply(cfg, s, Commit(t))) == Flush(cfg, s)
  {
    var p := s.tasks[t];
    assert Critical(p) && s.lock == Some(t);
    RunActionsEnd(p.run, p.actions, s.core.context);
    hide DoAction, DocumentOf, LockInvariant, RunActions;
    assert s.effects + [] == s.effects;
  }

  lemma WriteIsLinear(cfg: Config, s: Sys)
    requires Linear(cfg, s) && Enabled(cfg, s, Write)
    requires WriterFits(s.writer.value, s.disk)
    ensures Linear(cfg, Apply(cfg, s, Write))
  {
    if s.writer.value.owner.None? {
      ForcedWriteIsLinear(cfg, s);
    } else {
      OwnWriteIsLinear(cfg, s);
    }
  }

  lemma OwnWriteIsLinear(cfg: Config, s: Sys)
    requires Linear(cfg, s) && Enabled(cfg, s, Write) && s.writer.value.owner.Some?
    requires WriterFits(s.writer.value, s.disk)
    ensures Linear(cfg, Apply(cfg, s, Write))
  {
    WriteKeepsLock(cfg, s);
    OwnerIsSaving(cfg, s);
    WriterGoesOn(s.writer.value, s.disk);
    hide Rest, Replay, Conclude, LockInvariant, DiskStep, NextStage, Written, WriterFits, RenamedBy;
    var w, t := s.writer.value, s.lock.value;
    var s' := Apply(cfg, s, Write);
    assert Flush(cfg, s) == Serial(s.core, Written(w.doc, w.outcome, s.disk), s.effects, s.results + [s.tasks[t].result]);
    assert Flush(cfg, s') == Flush(cfg, s);
  }

  lemma OwnerIsSaving(cfg: Config, s: Sys)
    requires LockInvariant(cfg, s) && s.writer.Some? && s.writer.value.owner.Some?
    ensures s.lock == s.writer.value.owner && s.lock.value in s.tasks && s.tasks[s.lock.value].Saving?
  {
  }

  lemma WriteKeepsLock(cfg: Config, s: Sys)
    requires LockInvariant(cfg, s) && s.writer.Some?
    ensures LockInvariant(cfg, ApplyWrite(s))
  {
    assert NextStage(s.writer.value).Some? ==> NextStage(s.writer.value).value.owner == s.writer.value.owner;
    hide DiskStep, NextStage, RenamedBy;
  }

  /** A persist forced by the host touches nothing but the files. */
  lemma ForcedWriteIsLinear(cfg: Config, s: Sys)
    requires Linear(cfg, s) && Enabled(cfg, s, Write) && s.writer.value.owner.None?
    ensures Linear(cfg, Apply(cfg, s, Write))
  {
    WriteKeepsLock(cfg, s);
    assert s.forced;
    hide Rest, Replay, Conclude, DiskStep, NextStage, RenamedBy, LockInvariant;
    var s' := Apply(cfg, s, Write);
    assert s'.core == s.core && s'.tasks == s.tasks && s'.lock == s.lock && s'.forced;
    assert s'.effects == s.effects && s'.results == s.results;
    if s.lock.Some? && s.tasks[s.lock.value].Acting? {
      var p := s.tasks[s.lock.value];
      ConcludeIgnoresDisk(cfg, s.core, s.disk, s'.disk, p.target, p.run.o,
                          Rest(p.run, p.actions, p.k, p.started, s.core.context));
    }
  }

  lemma ConcludeIgnoresDisk(cfg: Config, core: Core, a: Disk, b: Disk, target: string, o: Oracle, out: Outcome)
    ensures var c, d := Conclude(cfg, core, a, target, o, out), Conclude(cfg, core, b, target, o, out);
            c.core == d.core && c.effects == d.effects && c.result == d.result
  {
    hide PersistTo;
  }

  // ---------- The files ----------

  /** A document this plugin can restore from, without excluded or sensitive keys. */
  ghost predicate Usable(cfg: Config, d: Document) {
    && d.schemaVersion == Some(1) && d.name == Some(cfg.name)
    && d.stateId.Some? && d.enteredAt.Some? && d.context.Some?
    && forall k :: k in d.context.value ==> k !in cfg.exclude && !IsSensitive(k)
  }

  /** A whole document of this schema and this plugin. */
  predicate Acceptable(cfg: Config, f: File) {
    f.Whole? && f.doc.schemaVersion == Some(1) && f.doc.name == Some(cfg.name)
  }

  ghost predicate FileInvariant(cfg: Config, s: Sys) {
    && (forall i :: 0 <= i < |s.persisted| ==> Usable(cfg, s.persisted[i]))
    && (forall i :: 0 <= i < |s.renamed| ==> s.renamed[i] in s.persisted)
    && (s.renamed != [] ==> s.disk.target == Whole(s.renamed[|s.renamed| - 1]))
    && (s.renamed == [] ==> s.disk.target == s.firstTarget || (s.disk.target == Absent && !Acceptable(cfg, s.firstTarget)))
    && (s.writer.Some? ==>
          s.writer.value.doc in s.persisted && WriterFits(s.writer.value, s.disk))
  }

  lemma DocumentIsUsable(cfg: Config, core: Core, updatedAt: int)
    ensures Usable(cfg, DocumentOf(cfg, core, updatedAt))
  {
  }

  lemma BeginWriteKeepsFiles(cfg: Config, s: Sys, core: Core, updatedAt: int, outcome: DiskOutcome, owner: Option<nat>)
    requires FileInvariant(cfg, s)
    ensures FileInvariant(cfg, BeginWrite(s, Writer(DocumentOf(cfg, core, updatedAt), outcome, Opening, owner)))
  {
    hide DocumentOf, IsSensitive;
    DocumentIsUsable(cfg, core, updatedAt);
  }

  lemma WriteKeepsFiles(cfg: Config, s: Sys)
    requires FileInvariant(cfg, s) && s.writer.Some?
    ensures FileInvariant(cfg, ApplyWrite(s))
  {
    WriterGoesOn(s.writer.value, s.disk);
    WriterStep(s.writer.value, s.disk);
    hide Usable, DiskStep, NextStage, WriterFits, Written, RenamedBy;
  }

  lemma WriterStep(w: Writer, disk: Disk)
    requires WriterFits(w, disk)
    ensures (RenamedBy(w) == [] && DiskStep(w, disk).target == disk.target)
         || (RenamedBy(w) == [w.doc] && DiskStep(w, disk).target == Whole(w.doc))
    ensures NextStage(w).Some? ==> NextStage(w).value.doc == w.doc
  {
  }

  /** A file that holds a document of this plugin is restored, never moved aside. */
  lemma UsableIsRestored(cfg: Config, core: Core, disk: Disk, d: Document, ignoreCorrupt: bool, backupWorks: bool, now: int)
    requires cfg.persistent && disk.target == Whole(d) && Usable(cfg, d)
    ensures Restore(cfg, core, disk, ignoreCorrupt, backupWorks, now)
         == (Core(d.stateId.value, d.context.value, d.enteredAt.value), disk, Restored)
  {
  }

  lemma ReloadKeepsFiles(cfg: Config, s: Sys, step: Step)
    requires FileInvariant(cfg, s) && step.Reload? && Enabled(cfg, s, step)
    ensures FileInvariant(cfg, Apply(cfg, s, step))
  {
    hide IsSensitive;
    if s.renamed != [] && cfg.persistent {
      UsableIsRestored(cfg, s.core, s.disk, s.renamed[|s.renamed| - 1], step.ignoreCorrupt, step.backupWorks, step.now);
    }
  }

  lemma StepKeepsFiles(cfg: Config, s: Sys, step: Step)
    requires FileInvariant(cfg, s) && Enabled(cfg, s, step)
    ensures FileInvariant(cfg, Apply(cfg, s, step))
  {
    hide IsSensitive, StartAction, FinishAction, DocumentOf, Restore, DecisionOf, Transition, Usable;
    match step
    case Commit(t) =>
      var p := s.tasks[t];
      var core := Core(p.target, s.core.context, p.run.o.enteredClock);
      if cfg.persistent {
        BeginWriteKeepsFiles(cfg, s.(core := core, tasks := s.tasks[t := Saving(Matched(p.target))]),
                             core, p.run.o.updatedClock, p.run.o.disk, Some(t));
      }
    case ForcePersist(updatedAt, outcome) =>
      BeginWriteKeepsFiles(cfg, s.(forced := true), s.core, updatedAt, outcome, None);
    case Write => WriteKeepsFiles(cfg, s);
    case Reload(_, _, _) => ReloadKeepsFiles(cfg, s, step);
    case _ =>
  }

  /** The effects of the serial engine are those made so far and those the holder of the lock will still make. */
  lemma EffectsToCome(cfg: Config, s: Sys) returns (rest: seq<Effect>)
    requires Linear(cfg, s)
    ensures Replay(cfg, s.base, s.log).effects == s.effects + rest
  {
    hide Replay, Conclude, Rest;
    rest := Flush(cfg, s).effects[|s.effects|..];
  }

  /** Likewise for the results. */
  lemma ResultsToCome(cfg: Config, s: Sys) returns (rest: seq<TransitionResult>)
    requires Linear(cfg, s)
    ensures Replay(cfg, s.base, s.log).results == s.results + rest
  {
    hide Replay, Conclude, Rest;
    rest := Flush(cfg, s).results[|s.results|..];
  }

  // ---------- Events ----------

  /** The event is in the machine: waiting for the lock, or taken up since the process began. */
  ghost predicate Carries(s: Sys, ev: Event) {
    (exists t :: t in s.tasks && s.tasks[t] == Waiting(ev)) || (exists i :: 0 <= i < |s.log| && s.log[i].ev == ev)
  }

  /** Within a process no event gets into the machine but by arriving. */
  lemma StepCarries(cfg: Config, s: Sys, step: Step, ev: Event)
    requires Enabled(cfg, s, step) && !step.Crash? && !step.Reload? && Carries(Apply(cfg, s, step), ev)
    ensures Carries(s, ev) || (step.Arrive? && ev == step.ev)
  {
    hide StartAction, FinishAction, DocumentOf, DecisionOf, Transition, DiskStep, NextStage, RenamedBy;
    if step.Acquire? {
      var e := Apply(cfg, s, step);
      assert e.log[..|s.log|] == s.log && e.log[|s.log|].ev == s.tasks[step.t].ev;
    }
  }

  lemma StepKeepsBase(cfg: Config, s: Sys, step: Step)
    requires Enabled(cfg, s, step) && !step.Crash? && !step.Reload?
    ensures Apply(cfg, s, step).base == s.base
  {
    hide StartAction, FinishAction, DocumentOf, DecisionOf, Transition, DiskStep, NextStage, RenamedBy;
  }

  // ---------- Runs ----------

  ghost predicate Inv(cfg: Config, s: Sys) {
    Linear(cfg, s) && FileInvariant(cfg, s)
  }

  lemma StepIsLinear(cfg: Config, s: Sys, step: Step)
    requires Inv(cfg, s) && Enabled(cfg, s, step)
    ensures Linear(cfg, Apply(cfg, s, step))
  {
    match step
    case Acquire(t, o) => AcquireIsLinear(cfg, s, t, o);
    case StartNext(t) => StartIsLinear(cfg, s, t);
    case Resume(t) => ResumeIsLinear(cfg, s, t);
    case Commit(t) => CommitIsLinear(cfg, s, t);
    case Write => WriteIsLinear(cfg, s);
    case _ => QuietStepIsLinear(cfg, s, step);
  }

  lemma QuietStepIsLinear(cfg: Config, s: Sys, step: Step)
    requires Linear(cfg, s) && Enabled(cfg, s, step)
    requires step.Arrive? || step.Abandon? || step.ForcePersist? || step.Crash? || step.Reload?
    ensures Linear(cfg, Apply(cfg, s, step))
  {
    if step.Crash? || step.Reload? {
      RestartIsLinear(cfg, s, step);
    } else {
      QuietStepFlushes(cfg, s, step);
    }
    hide Flush, Replay, Apply, LockInvariant;
  }

  /** A crash and a reload begin a new log. */
  lemma RestartIsLinear(cfg: Config, s: Sys, step: Step)
    requires Linear(cfg, s) && Enabled(cfg, s, step) && (step.Crash? || step.Reload?)
    ensures Linear(cfg, Apply(cfg, s, step))
  {
    hide Restore, DocumentOf, Rest, Conclude, Written;
  }

  /** An arrival, a waiting task that leaves, and a persist that begins by force change nothing of what the
      engine will be. */
  lemma QuietStepFlushes(cfg: Config, s: Sys, step: Step)
    requires LockInvariant(cfg, s) && Enabled(cfg, s, step)
    requires step.Arrive? || step.Abandon? || step.ForcePersist?
    ensures var s' := Apply(cfg, s, step);
            && LockInvariant(cfg, s') && s'.base == s.base && s'.log == s.log && (s.forced ==> s'.forced)
            && Flush(cfg, s') == Flush(cfg, s)
  {
    hide Rest, DocumentOf, Conclude, Written;
  }

  lemma StepKeepsInv(cfg: Config, s: Sys, step: Step)
    requires Inv(cfg, s) && Enabled(cfg, s, step)
    ensures Inv(cfg, Apply(cfg, s, step))
  {
    hide Linear, FileInvariant;
    StepIsLinear(cfg, s, step);
    StepKeepsFiles(cfg, s, step);
  }

  lemma {:induction false} RunKeepsInv(cfg: Config, s: Sys, steps: seq<Step>)
    requires Inv(cfg, s) && Exec(cfg, s, steps).Some?
    ensures Inv(cfg, Exec(cfg, s, steps).value)
    decreases |steps|
  {
    if steps != [] {
      StepKeepsInv(cfg, s, steps[0]);
      RunKeepsInv(cfg, Apply(cfg, s, steps[0]), steps[1..]);
    }
  }

  lemma InitKeepsInv(cfg: Config, disk: Disk, now: int)
    ensures Inv(cfg, Init(cfg, disk, now))
  {
  }

  // ---------- The theorems ----------

  /** In every run at most one task is inside its transition, and it is the one that holds the lock. */
  lemma MutualExclusion(cfg: Config, disk: Disk, now: int, steps: seq<Step>, t: nat, u: nat)
    requires Exec(cfg, Init(cfg, disk, now), steps).Some?
    requires var s := Exec(cfg, Init(cfg, disk, now), steps).value;
             t in s.tasks && u in s.tasks && Critical(s.tasks[t]) && Critical(s.tasks[u])
    ensures t == u && Exec(cfg, Init(cfg, disk, now), steps).value.lock == Some(t)
  {
    InitKeepsInv(cfg, disk, now);
    RunKeepsInv(cfg, Init(cfg, disk, now), steps);
  }

  /** Whenever the lock is free, whatever happened before - interleavings, failing or raising actions,
      crashes, reloads - the engine, the effects and the results are those of running the acquisitions one
      after another; and so are the files, unless the host forced a persist meanwhile. */
  lemma Linearizable(cfg: Config, disk: Disk, now: int, steps: seq<Step>)
    requires Exec(cfg, Init(cfg, disk, now), steps).Some?
    ensures var s := Exec(cfg, Init(cfg, disk, now), steps).value;
            var z := Replay(cfg, s.base, s.log);
            s.lock.None? ==>
              s.core == z.core && s.effects == z.effects && s.results == z.results && (!s.forced ==> s.disk == z.disk)
  {
    InitKeepsInv(cfg, disk, now);
    RunKeepsInv(cfg, Init(cfg, disk, now), steps);
  }

  /** At any point of any run, crashes in the middle of a write included, the state file is the document
      of the last rename that took effect, which some persist call made whole; before the first such
      rename it is the file found at the start, or gone because a reload moved it aside as not acceptable. */
  lemma CrashSafe(cfg: Config, disk: Disk, now: int, steps: seq<Step>)
    requires Exec(cfg, Init(cfg, disk, now), steps).Some?
    ensures var s := Exec(cfg, Init(cfg, disk, now), steps).value;
            && (s.renamed != [] ==> s.disk.target == Whole(s.renamed[|s.renamed| - 1]))
            && (s.renamed == [] ==> s.disk.target == disk.target || (s.disk.target == Absent && !Acceptable(cfg, disk.target)))
            && (forall i :: 0 <= i < |s.renamed| ==> s.renamed[i] in s.persisted && Usable(cfg, s.renamed[i]))
  {
    InitKeepsInv(cfg, disk, now);
    RunKeepsInv(cfg, Init(cfg, disk, now), steps);
    FirstTargetFixed(cfg, Init(cfg, disk, now), steps);
  }

  lemma {:induction false} FirstTargetFixed(cfg: Config, s: Sys, steps: seq<Step>)
    requires Exec(cfg, s, steps).Some?
    ensures Exec(cfg, s, steps).value.firstTarget == s.firstTarget
    decreases |steps|
  {
    hide StartAction, FinishAction, DocumentOf, Restore, DecisionOf, Transition;
    if steps != [] {
      FirstTargetFixed(cfg, Apply(cfg, s, steps[0]), steps[1..]);
    }
  }

  /** A restore depends on the state file only, and not on what else is on the disk. */
  lemma RestoreReadsTarget(cfg: Config, core: Core, a: Disk, b: Disk, ignoreCorrupt: bool, backupWorks: bool, now: int)
    requires a.target == b.target
    ensures var (r, q) := (Restore(cfg, core, a, ignoreCorrupt, backupWorks, now), Restore(cfg, core, b, ignoreCorrupt, backupWorks, now));
            r.0 == q.0 && r.2 == q.2
  {
  }

  /** After any run that started with any files, a restore gives back state, entry time and context of the last
      renamed document. When no rename took effect, it ends as it would have ended at the start, unless a reload
      has moved a file aside that was not acceptable; then it finds none. */
  lemma RestoreAfterCrash(cfg: Config, disk: Disk, now: int, steps: seq<Step>, core: Core, ignoreCorrupt: bool,
                          backupWorks: bool, later: int)
    requires cfg.persistent
    requires Exec(cfg, Init(cfg, disk, now), steps).Some?
    ensures var s := Exec(cfg, Init(cfg, disk, now), steps).value;
            var r := Restore(cfg, core, s.disk, ignoreCorrupt, backupWorks, later);
            var first := Restore(cfg, core, disk, ignoreCorrupt, backupWorks, later);
            if s.renamed == [] then
              (r.0 == first.0 && r.2 == first.2) || (r == (core, s.disk, Skipped) && !Acceptable(cfg, disk.target))
            else
              var d := s.renamed[|s.renamed| - 1];
              d in s.persisted && Usable(cfg, d) &&
              r == (Core(d.stateId.value, d.context.value, d.enteredAt.value), s.disk, Restored)
  {
    CrashSafe(cfg, disk, now, steps);
    var s := Exec(cfg, Init(cfg, disk, now), steps).value;
    if s.renamed != [] {
      UsableIsRestored(cfg, core, s.disk, s.renamed[|s.renamed| - 1], ignoreCorrupt, backupWorks, later);
    } else if s.disk.target == disk.target {
      RestoreReadsTarget(cfg, core, s.disk, disk, ignoreCorrupt, backupWorks, later);
    }
  }

  // ---------- The holder of the lock can always finish ----------

  /** A step of the holder of the lock or of a persist. */
  predicate Internal(step: Step) {
    step.StartNext? || step.Resume? || step.Commit? || step.Write?
  }

  function StagesLeft(w: Option<Writer>): nat {
    match w
    case None => 0
    case Some(v) => (match v.stage case Opening => 3 case Filling => 2 case Renaming => 1)
  }

  /** How many steps are left at most until the lock is free and nothing is being written. */
  function StepsLeft(cfg: Config, s: Sys): nat
    requires s.lock.Some? ==> s.lock.value in s.tasks && GoodPhase(cfg, s.core, s.tasks[s.lock.value])
  {
    StagesLeft(s.writer) +
    (if s.lock.None? then 0 else
     match s.tasks[s.lock.value]
     case Acting(_, _, actions, k, started) => 2 * (|actions| - k) + 4 - (if started then 1 else 0)
     case _ => 0)
  }

  function NextStep(s: Sys): Step {
    if s.writer.Some? || s.lock.None? || s.lock.value !in s.tasks then Write else
    match s.tasks[s.lock.value]
    case Acting(_, _, actions, k, started) =>
      if started then Resume(s.lock.value) else if k < |actions| then StartNext(s.lock.value) else Commit(s.lock.value)
    case _ => Write
  }

  lemma NextStepGoesOn(cfg: Config, s: Sys)
    requires LockInvariant(cfg, s) && (s.lock.Some? || s.writer.Some?)
    requires LockInvariant(cfg, s) && Enabled(cfg, s, NextStep(s)) ==> LockInvariant(cfg, Apply(cfg, s, NextStep(s)))
    ensures Enabled(cfg, s, NextStep(s)) && Internal(NextStep(s))
    ensures var s' := Apply(cfg, s, NextStep(s));
            StepsLeft(cfg, s') < StepsLeft(cfg, s) && s'.base == s.base && s'.log == s.log && s'.forced == s.forced
  {
    hide StartAction, FinishAction, DocumentOf;
    if s.lock.Some? {
      assert Critical(s.tasks[s.lock.value]);
    }
    if s.writer.Some? {
      WriteGoesOn(cfg, s);
    }
    hide ApplyWrite, LockInvariant;
  }

  lemma WriteGoesOn(cfg: Config, s: Sys)
    requires LockInvariant(cfg, s) && s.writer.Some? && LockInvariant(cfg, ApplyWrite(s))
    ensures var s' := ApplyWrite(s);
            StepsLeft(cfg, s') < StepsLeft(cfg, s) && s'.base == s.base && s'.log == s.log && s'.forced == s.forced
  {
    hide DiskStep, RenamedBy;
  }

  /** No deadlock: from every state of every run there are steps of the lock's holder and of the writer alone
      that free the lock and finish the writing, provided that awaited actions end; then the engine is the
      serial one. */
  lemma {:induction false} CanFinish(cfg: Config, s: Sys) returns (steps: seq<Step>)
    requires Inv(cfg, s)
    ensures Exec(cfg, s, steps).Some? && forall i :: 0 <= i < |steps| ==> Internal(steps[i])
    ensures var e := Exec(cfg, s, steps).value;
            && Inv(cfg, e) && e.lock.None? && e.writer.None?
            && e.base == s.base && e.log == s.log && e.forced == s.forced
            && SameSerial(Serial(e.core, e.disk, e.effects, e.results), Replay(cfg, s.base, s.log), s.forced)
    decreases StepsLeft(cfg, s)
  {
    hide Apply, NextStep, FileInvariant, Replay;
    steps := [];
    if s.lock.Some? || s.writer.Some? {
      if Enabled(cfg, s, NextStep(s)) {
        StepKeepsInv(cfg, s, NextStep(s));
      }
      NextStepGoesOn(cfg, s);
      hide LockInvariant, StepsLeft, Enabled, Internal, SameSerial, Flush;
      var s' := Apply(cfg, s, NextStep(s));
      var rest := CanFinish(cfg, s');
      steps := [NextStep(s)] + rest;
      assert steps[1..] == rest;
    }
  }
}
