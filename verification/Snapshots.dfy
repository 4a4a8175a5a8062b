/** Whose snapshot the state file holds: every document is a snapshot of the engine at the moment its persist
    began, in every run, and a persist forced at shutdown saves the engine as it stands. */
module Snapshots {
  import opened Text
  import opened Chart
  import opened ActionFacts
  import opened Machine

  /** The step begins a persist. */
  predicate Begins(step: Step) {
    step.Commit? || step.ForcePersist?
  }

  /** The persist that just began writes a snapshot of the engine as it is now. */
  ghost predicate JustBegan(cfg: Config, s: Sys) {
    && s.persisted != [] && s.writer.Some? && s.writer.value.stage == Opening
    && s.writer.value.doc == s.persisted[|s.persisted| - 1]
    && IsSnapshot(cfg, s.persisted[|s.persisted| - 1], s.core)
  }

  /** Documents come from persists that begin, one for each, and from nothing else. */
  lemma StepPersists(cfg: Config, s: Sys, step: Step)
    requires Enabled(cfg, s, step)
    ensures var s' := Apply(cfg, s, step);
            || s'.persisted == s.persisted
            || (Begins(step) && |s'.persisted| == |s.persisted| + 1 && s'.persisted[..|s.persisted|] == s.persisted && JustBegan(cfg, s'))
  {
    hide StartAction, FinishAction, DecisionOf, Transition, Restore, DiskStep, NextStage, RenamedBy, IsSnapshot, DocumentOf;
    match step
    case Commit(t) =>
      var p := s.tasks[t];
      DocumentIsSnapshot(cfg, Core(p.target, s.core.context, p.run.o.enteredClock), p.run.o.updatedClock);
    case ForcePersist(updatedAt, _) =>
      DocumentIsSnapshot(cfg, s.core, updatedAt);
    case _ =>
  }

  /** Every document of a run was a snapshot of the engine when its persist began. */
  lemma {:induction false} DocumentsAreSnapshots(cfg: Config, s: Sys, steps: seq<Step>, i: nat) returns (n: nat)
    requires Exec(cfg, s, steps).Some? && |s.persisted| <= i < |Exec(cfg, s, steps).value.persisted|
    ensures n < |steps| && Begins(steps[n]) && Exec(cfg, s, steps[..n + 1]).Some?
    ensures var b := Exec(cfg, s, steps[..n + 1]).value;
            && JustBegan(cfg, b) && |b.persisted| == i + 1
            && b.persisted[i] == Exec(cfg, s, steps).value.persisted[i]
    decreases |steps|
  {
    hide Enabled, Apply, JustBegan, Begins;
    var s' := Apply(cfg, s, steps[0]);
    StepPersists(cfg, s, steps[0]);
    PersistedGrows(cfg, s', steps[1..]);
    if |s'.persisted| <= i {
      var m := DocumentsAreSnapshots(cfg, s', steps[1..], i);
      n := m + 1;
      assert steps[..n + 1][0] == steps[0] && steps[..n + 1][1..] == steps[1..][..m + 1];
    } else {
      n := 0;
      assert steps[..1][0] == steps[0] && steps[..1][1..] == [];
      assert Exec(cfg, s', []) == Some(s');
    }
  }

  lemma {:induction false} PersistedGrows(cfg: Config, s: Sys, steps: seq<Step>)
    requires Exec(cfg, s, steps).Some?
    ensures s.persisted <= Exec(cfg, s, steps).value.persisted
    decreases |steps|
  {
    hide Enabled, Apply, JustBegan, Begins;
    if steps != [] {
      StepPersists(cfg, s, steps[0]);
      PersistedGrows(cfg, Apply(cfg, s, steps[0]), steps[1..]);
    }
  }

  /** At any point of any run in which a rename took effect, the state file is a snapshot of the engine at the
      moment when one of the run's persists began, and restoring from it gives that state, that entry time, and of
      that context exactly what is neither excluded nor sensitive. */
  lemma FileIsSnapshot(cfg: Config, disk: Disk, now: int, steps: seq<Step>, core: Core, ignoreCorrupt: bool, backupWorks: bool, later: int)
    returns (n: nat)
    requires cfg.persistent && Exec(cfg, Init(cfg, disk, now), steps).Some?
    requires Exec(cfg, Init(cfg, disk, now), steps).value.renamed != []
    ensures n < |steps| && Begins(steps[n]) && Exec(cfg, Init(cfg, disk, now), steps[..n + 1]).Some?
    ensures var s, begun := Exec(cfg, Init(cfg, disk, now), steps).value, Exec(cfg, Init(cfg, disk, now), steps[..n + 1]).value;
            && JustBegan(cfg, begun) && s.disk.target == Whole(begun.writer.value.doc)
            && s.renamed[|s.renamed| - 1] == begun.writer.value.doc
            && var (after, _, r) := Restore(cfg, core, s.disk, ignoreCorrupt, backupWorks, later);
               && r == Restored && after.state == begun.core.state && after.enteredAt == begun.core.enteredAt
               && IsHarmlessPart(cfg, after.context, begun.core.context)
  {
    var s0 := Init(cfg, disk, now);
    CrashSafe(cfg, disk, now, steps);
    hide Exec, IsSnapshot, Restore, Usable, Begins, IsHarmlessPart;
    var s := Exec(cfg, s0, steps).value;
    var d := s.renamed[|s.renamed| - 1];
    var i :| 0 <= i < |s.persisted| && s.persisted[i] == d;
    n := DocumentsAreSnapshots(cfg, s0, steps, i);
    var begun := Exec(cfg, s0, steps[..n + 1]).value;
    SnapshotRestores(cfg, d, begun.core, core, s.disk, ignoreCorrupt, backupWorks, later);
  }

  /** A persist that the host forces, when it succeeds, leaves the engine alone, and a restore then gives back the
      engine's state, entry time and harmless context as they were when it began. */
  lemma ForcedPersistSaves(cfg: Config, s: Sys, updatedAt: int, core: Core, ignoreCorrupt: bool, backupWorks: bool, now: int)
    requires Enabled(cfg, s, ForcePersist(updatedAt, Saved))
    ensures var steps := [ForcePersist(updatedAt, Saved), Write, Write, Write];
            && Exec(cfg, s, steps).Some?
            && var e := Exec(cfg, s, steps).value;
               && e.core == s.core && e.tasks == s.tasks && e.lock == s.lock && e.writer.None?
               && e.effects == s.effects && e.results == s.results
               && var (after, _, r) := Restore(cfg, core, e.disk, ignoreCorrupt, backupWorks, now);
                  && r == Restored && after.state == s.core.state && after.enteredAt == s.core.enteredAt
                  && IsHarmlessPart(cfg, after.context, s.core.context)
  {
    var steps := [ForcePersist(updatedAt, Saved), Write, Write, Write];
    var s1 := Apply(cfg, s, steps[0]);
    StepPersists(cfg, s, steps[0]);
    var d := s1.writer.value.doc;
    hide IsSnapshot, IsHarmlessPart, DocumentOf, Restore;
    var s2, s3, s4 := Forced(s1, 1), Forced(s1, 2), Forced(s1, 3);
    ForcedWrites(cfg, s1);
    assert steps[1..] == [Write, Write, Write] && steps[1..][1..] == [Write, Write] && steps[1..][1..][1..] == [Write];
    assert steps[1..][1..][1..][1..] == [];
    assert Exec(cfg, s4, []) == Some(s4);
    assert Exec(cfg, s3, [Write]) == Some(s4) by { assert [Step.Write][1..] == []; }
    assert Exec(cfg, s2, [Write, Write]) == Some(s4) by { assert [Step.Write, Step.Write][1..] == [Step.Write]; }
    assert Exec(cfg, s1, [Write, Write, Write]) == Some(s4) by { assert [Step.Write, Step.Write, Step.Write][1..] == [Step.Write, Step.Write]; }
    SnapshotRestores(cfg, d, s.core, core, s4.disk, ignoreCorrupt, backupWorks, now);
  }

  /** The engine after `n` steps of a persist that succeeds and belongs to no task. */
  function Forced(s: Sys, n: nat): Sys
    requires s.writer.Some?
  {
    var w := s.writer.value;
    if n == 0 then s
    else if n == 1 then s.(disk := s.disk.(tmp := Torn(false)), writer := Some(w.(stage := Filling)))
    else if n == 2 then s.(disk := s.disk.(tmp := Whole(w.doc)), writer := Some(w.(stage := Renaming)))
    else s.(disk := s.disk.(target := Whole(w.doc), tmp := Absent), writer := None, renamed := s.renamed + [w.doc])
  }

  lemma ForcedWrites(cfg: Config, s: Sys)
    requires s.writer.Some? && s.writer.value.owner.None? && s.writer.value.stage == Opening && s.writer.value.outcome == Saved
    ensures forall n :: 0 <= n < 3 ==> Enabled(cfg, Forced(s, n), Write) && Apply(cfg, Forced(s, n), Write) == Forced(s, n + 1)
  {
    assert s.renamed + [] == s.renamed;
  }

  /** A crash starts over with the initial state and context, whatever was in progress. */
  lemma CrashStartsOver(cfg: Config, s: Sys, now: int, cutsChar: bool)
    ensures var s' := Apply(cfg, s, Crash(now, cutsChar));
            && s'.core == Core(cfg.initial, cfg.initialContext, now)
            && s'.tasks == map[] && s'.lock.None? && s'.writer.None? && s'.disk.target == s.disk.target
  {
  }

  /** A reload goes on from what the state file shows. */
  lemma ReloadGoesOn(cfg: Config, s: Sys, d: Document, shown: Core, ignoreCorrupt: bool, backupWorks: bool, now: int)
    requires cfg.persistent && Enabled(cfg, s, Reload(ignoreCorrupt, backupWorks, now))
    requires IsSnapshot(cfg, d, shown) && s.disk.target == Whole(d)
    ensures var s' := Apply(cfg, s, Reload(ignoreCorrupt, backupWorks, now));
            && s'.core.state == shown.state && s'.core.enteredAt == shown.enteredAt && s'.disk == s.disk
            && IsHarmlessPart(cfg, s'.core.context, shown.context)
  {
    SnapshotRestores(cfg, d, shown, s.core, s.disk, ignoreCorrupt, backupWorks, now);
    hide IsSnapshot, IsHarmlessPart, Restore;
  }
}
