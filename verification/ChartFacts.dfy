/** What one transition does, stated without its recursion: which entry decides it, which actions
    run, what they leave behind, and when state may change. */
module ChartFacts {
  import opened Text
  import opened Evaluator
  import opened Filter
  import opened Template
  import opened Chart

  // ---------- The first decisive entry decides ----------

  /** An entry on which the scan stops: its guard does not pass, or it has a target. */
  predicate Decisive(run: Run, context: Context, entries: seq<Entry>, i: nat)
    requires i < |entries|
  {
    entries[i].Entry? && (CheckGuard(run, context, entries[i].guard, i) != Passed || HasTarget(entries[i]))
  }

  ghost predicate FirstDecisive(run: Run, context: Context, entries: seq<Entry>, from: nat, d: nat) {
    && from <= d < |entries|
    && Decisive(run, context, entries, d)
    && forall j :: from <= j < d ==> !Decisive(run, context, entries, j)
  }

  /** What a decisive entry means: its failing guard, else its undeclared target, else its firing. */
  function Verdict(run: Run, context: Context, entries: seq<Entry>, d: nat): Decision
    requires d < |entries| && Decisive(run, context, entries, d)
  {
    var outcome := CheckGuard(run, context, entries[d].guard, d);
    if outcome != Passed then Blocked(outcome)
    else if entries[d].target.value !in run.cfg.states then Undeclared(entries[d].target.value)
    else Fire(d, entries[d].target.value)
  }

  /** The scan answers with the verdict of the first decisive entry, and `Unmatched` exactly when there
      is none: a guard that fails hides every later entry. */
  lemma {:induction false} ScanIsFirstVerdict(run: Run, context: Context, entries: seq<Entry>, i: nat)
    requires i <= |entries|
    ensures Scan(run, context, entries, i) == Unmatched <==>
              forall j :: i <= j < |entries| ==> !Decisive(run, context, entries, j)
    ensures forall d: nat :: FirstDecisive(run, context, entries, i, d) ==>
              Scan(run, context, entries, i) == Verdict(run, context, entries, d)
    decreases |entries| - i
  {
    hide CheckGuard;
    if i < |entries| {
      ScanIsFirstVerdict(run, context, entries, i + 1);
      if Decisive(run, context, entries, i) {
        assert FirstDecisive(run, context, entries, i, i);
        assert Scan(run, context, entries, i) == Verdict(run, context, entries, i);
      } else {
        assert Scan(run, context, entries, i) == Scan(run, context, entries, i + 1);
        forall d: nat | FirstDecisive(run, context, entries, i, d)
          ensures FirstDecisive(run, context, entries, i + 1, d)
        {
        }
      }
    }
  }

  // ---------- The actions that run ----------

  /** The context after the first `n` actions, each run in the context the one before it left. */
  function ContextAfter(run: Run, actions: seq<Action>, context: Context, n: nat): Context
    requires n <= |actions|
  {
    if n == 0 then context
    else DoAction(run, actions[n - 1], n - 1, ContextAfter(run, actions, context, n - 1)).context
  }

  /** The `n`-th action's outcome when all before it ran. */
  function OutcomeOf(run: Run, actions: seq<Action>, context: Context, n: nat): Outcome
    requires n < |actions|
  {
    DoAction(run, actions[n], n, ContextAfter(run, actions, context, n))
  }

  function EffectsOf(run: Run, actions: seq<Action>, context: Context, n: nat): seq<Effect>
    requires n <= |actions|
  {
    if n == 0 then [] else EffectsOf(run, actions, context, n - 1) + OutcomeOf(run, actions, context, n - 1).effects
  }

  /** `out` is the result of running exactly the first `m` actions to the end and, if there is another,
      of stopping at it. */
  ghost predicate IsExecution(run: Run, actions: seq<Action>, context: Context, m: nat, out: Outcome) {
    && m <= |actions|
    && (forall j :: 0 <= j < m ==> OutcomeOf(run, actions, context, j).status == Done)
    && (m < |actions| ==> OutcomeOf(run, actions, context, m).status != Done)
    && var n := if m < |actions| then m + 1 else m;
       out == Outcome(ContextAfter(run, actions, context, n), EffectsOf(run, actions, context, n),
                      if m < |actions| then OutcomeOf(run, actions, context, m).status else Done)
  }

  /** One unfolding of `RunActions`, as seen from the start of the list. */
  lemma {:induction false} RunActionsStep(run: Run, actions: seq<Action>, context: Context, k: nat)
    requires k < |actions| && OutcomeOf(run, actions, context, k).status == Done
    ensures After(EffectsOf(run, actions, context, k), RunActions(run, actions, k, ContextAfter(run, actions, context, k)))
         == After(EffectsOf(run, actions, context, k + 1),
                    RunActions(run, actions, k + 1, ContextAfter(run, actions, context, k + 1)))
  {
    hide DoAction;
    var first := OutcomeOf(run, actions, context, k);
    AfterTwice(EffectsOf(run, actions, context, k), first.effects, RunActions(run, actions, k + 1, first.context));
  }

  /** The run from action `k` on, as seen from the start of the list. */
  function Seen(run: Run, actions: seq<Action>, context: Context, k: nat): Outcome
    requires k <= |actions|
  {
    After(EffectsOf(run, actions, context, k), RunActions(run, actions, k, ContextAfter(run, actions, context, k)))
  }

  ghost predicate DoneBefore(run: Run, actions: seq<Action>, context: Context, k: nat) {
    k <= |actions| && forall j :: 0 <= j < k ==> OutcomeOf(run, actions, context, j).status == Done
  }

  lemma {:induction false} RunActionsStop(run: Run, actions: seq<Action>, context: Context, k: nat)
    requires DoneBefore(run, actions, context, k)
    requires k < |actions| ==> OutcomeOf(run, actions, context, k).status != Done
    ensures IsExecution(run, actions, context, k, Seen(run, actions, context, k))
  {
    hide DoAction;
    if k == |actions| {
      assert EffectsOf(run, actions, context, k) + [] == EffectsOf(run, actions, context, k);
    } else {
      var out := OutcomeOf(run, actions, context, k);
      assert RunActions(run, actions, k, ContextAfter(run, actions, context, k)) == out;
      assert ContextAfter(run, actions, context, k + 1) == out.context;
      assert EffectsOf(run, actions, context, k + 1) == EffectsOf(run, actions, context, k) + out.effects;
    }
  }

  lemma {:induction false} RunActionsFrom(run: Run, actions: seq<Action>, context: Context, k: nat) returns (m: nat)
    requires DoneBefore(run, actions, context, k)
    ensures IsExecution(run, actions, context, m, Seen(run, actions, context, k))
    decreases |actions| - k
  {
    hide DoAction;
    if k < |actions| && OutcomeOf(run, actions, context, k).status == Done {
      m := RunActionsFrom(run, actions, context, k + 1);
      RunActionsStep(run, actions, context, k);
    } else {
      RunActionsStop(run, actions, context, k);
      m := k;
    }
  }

  /** Running actions executes a prefix of them: all of them, or up to the first that fails. */
  lemma RunActionsExecutesPrefix(run: Run, actions: seq<Action>, context: Context) returns (m: nat)
    ensures IsExecution(run, actions, context, m, RunActions(run, actions, 0, context))
  {
    m := RunActionsFrom(run, actions, context, 0);
    var out := RunActions(run, actions, 0, context);
    assert [] + out.effects == out.effects;
  }

  // ---------- One transition ----------

  ghost predicate SameButContext(before: Core, after: Core) {
    after.state == before.state && after.enteredAt == before.enteredAt
  }

  /** A transition that fires: the actions run are a prefix of the entry's actions followed by the
      target's entry actions; state and entry time change only when all of them ended well, the context
      is what the executed prefix made of it in every case, and only then is anything persisted. */
  lemma FiringTheorem(cfg: Config, core: Core, disk: Disk, ev: Event, o: Oracle, d: nat) returns (m: nat)
    requires FirstDecisive(RunOf(cfg, core, ev, o), core.context, EntriesFor(cfg, core.state, ev.kind), 0, d)
    requires Verdict(RunOf(cfg, core, ev, o), core.context, EntriesFor(cfg, core.state, ev.kind), d).Fire?
    ensures var run, entries := RunOf(cfg, core, ev, o), EntriesFor(cfg, core.state, ev.kind);
            var target := entries[d].target.value;
            var actions := entries[d].actions + cfg.states[target].actions;
            var t := Transition(cfg, core, disk, ev, o);
            && m <= |actions|
            && (t.result == Matched(target) <==> m == |actions|)
            && (forall j :: 0 <= j < m ==> OutcomeOf(run, actions, core.context, j).status == Done)
            && t.core.context == ContextAfter(run, actions, core.context, if m < |actions| then m + 1 else m)
            && t.effects == EffectsOf(run, actions, core.context, if m < |actions| then m + 1 else m)
            && (m == |actions| ==> t.core.state == target && t.core.enteredAt == o.enteredClock)
            && (m < |actions| ==>
                 && SameButContext(core, t.core) && t.disk == disk
                 && (t.result == Exception <==> OutcomeOf(run, actions, core.context, m).status == Raised)
                 && (t.result == NoMatch(None, NoDetails) <==> OutcomeOf(run, actions, core.context, m).status == ActionFailed))
  {
    hide DoAction, RunActions, CheckGuard, EntriesFor, DocumentOf, Scan;
    var run, entries := RunOf(cfg, core, ev, o), EntriesFor(cfg, core.state, ev.kind);
    ScanIsFirstVerdict(run, core.context, entries, 0);
    var target := entries[d].target.value;
    m := RunActionsExecutesPrefix(run, FiredActions(cfg, entries, d, target), core.context);
  }

  /** A transition that does not fire changes nothing at all and has no effect. */
  lemma NoFiringTheorem(cfg: Config, core: Core, disk: Disk, ev: Event, o: Oracle)
    requires !DecisionOf(cfg, core, ev, o).Fire?
    ensures var t := Transition(cfg, core, disk, ev, o);
            && t.core == core && t.disk == disk && t.effects == [] && !t.result.Matched? && t.result != Exception
            && (DecisionOf(cfg, core, ev, o).Unmatched? ==> t.result == NoMatch(None, NoDetails))
            && (DecisionOf(cfg, core, ev, o).Undeclared? ==> t.result == BadTarget(DecisionOf(cfg, core, ev, o).target))
  {
  }

  // ---------- Single actions ----------

  predicate IsSend(e: Effect) {
    e.Sent?
  }

  function Sends(effects: seq<Effect>): nat {
    if effects == [] then 0 else (if IsSend(effects[0]) then 1 else 0) + Sends(effects[1..])
  }

  lemma {:induction false} SendsConcat(a: seq<Effect>, b: seq<Effect>)
    ensures Sends(a + b) == Sends(a) + Sends(b)
  {
    if a == [] {
      assert a + b == b;
    } else {
      assert (a + b)[0] == a[0] && (a + b)[1..] == a[1..] + b;
      SendsConcat(a[1..], b);
    }
  }

  /** What `send_a2a` dispatches: nothing when a template fails; otherwise the rendered message, once, or, when
      the first call raises TypeError after dispatching it, a second time without its metadata. */
  lemma SendDispatches(run: Run, peer: string, text: Source, metadata: Option<Metadata>, k: nat, context: Context)
    ensures var d, started := DoAction(run, SendA2A(peer, text, metadata), k, context),
                              StartAction(run, SendA2A(peer, text, metadata), k, context);
            && d.context == context
            && (Sends(d.effects) == 0 <==> started.status != Done)
            && (Sends(d.effects) == 2 <==> started.status == Done && run.o.handler(k).firstCall == TypeErrorAfterDispatch)
            && Sends(d.effects) <= 2
  {
    hide RenderSource, EnvOf, RenderMetadata;
    var d := DoAction(run, SendA2A(peer, text, metadata), k, context);
    if d.effects != [] {
      SendsConcat([d.effects[0]], d.effects[1..]);
      assert d.effects == [d.effects[0]] + d.effects[1..];
      assert Sends([d.effects[0]]) == 1;
      if |d.effects| == 2 {
        assert Sends([d.effects[1]]) == 1 && d.effects[1..] == [d.effects[1]];
      }
    }
  }

  /** The input that sends twice: a text that renders, and a send that raises TypeError once it has dispatched. */
  lemma TypeErrorSendsTwice(run: Run, peer: string, text: string, k: nat, context: Context)
    requires '{' !in text && run.o.handler(k).firstCall == TypeErrorAfterDispatch
    ensures DoAction(run, SendA2A(peer, Textual(text), None), k, context)
         == Outcome(context, [Sent(peer, text, None, false), Sent(peer, text, None, true)], run.o.handler(k).status)
  {
    var snap := run.o.actionSnap(k, 0);
    RenderPlain(text, "", EnvOf(run, context, snap), snap.world);
    assert text + "" == text;
  }

  /** Two increments of one key by `a` and `b` are one increment by `a + b`, and leave every other key alone. */
  lemma IncrementsAdd(run: Run, key: string, a: int, b: int, k: nat, context: Context)
    requires StartAction(run, IncrementContext(key, a), k, context).status == Done
    ensures var once := StartAction(run, IncrementContext(key, a), k, context);
            var twice := StartAction(run, IncrementContext(key, b), k + 1, once.context);
            && twice == StartAction(run, IncrementContext(key, a + b), k, context)
            && forall other :: other != key ==>
                 (other in twice.context <==> other in context) && (other in context ==> twice.context[other] == context[other])
  {
  }

  /** No text in the metadata opens a hole. */
  predicate HasNoHoles(m: Metadata) {
    match m
    case MText(text) => '{' !in text
    case MItems(items) => forall i :: 0 <= i < |items| ==> HasNoHoles(items[i])
    case MFields(fields) => forall k :: k in fields ==> HasNoHoles(fields[k])
    case MOther(_) => true
  }

  /** Metadata without holes is forwarded as it is, whatever its nesting and in every environment. */
  lemma {:induction false} PlainMetadataKept(m: Metadata, env: Env, w: World)
    requires HasNoHoles(m)
    ensures RenderMetadata(m, env, w) == Some(m)
    decreases m, 0
  {
    match m
    case MText(text) =>
      RenderPlain(text, "", env, w);
      assert text + "" == text;
    case MItems(items) =>
      PlainItemsKept(items, env, w);
    case MFields(fields) =>
      forall k | k in fields ensures RenderMetadata(fields[k], env, w) == Some(fields[k]) {
        PlainMetadataKept(fields[k], env, w);
      }
      var rendered := RenderMetadata(m, env, w);
      assert rendered.Some?;
      assert rendered.value.fields == fields;
    case MOther(_) =>
  }

  lemma {:induction false} PlainItemsKept(items: seq<Metadata>, env: Env, w: World)
    requires forall i :: 0 <= i < |items| ==> HasNoHoles(items[i])
    ensures RenderItems(items, env, w) == Some(items)
    decreases items, 1
  {
    if items != [] {
      PlainMetadataKept(items[0], env, w);
      PlainItemsKept(items[1..], env, w);
      assert [items[0]] + items[1..] == items;
    }
  }

  /** No text in the metadata has a hole that fails to resolve. */
  predicate MetadataRenders(m: Metadata) {
    match m
    case MText(text) => FirstBadHole(HoleNames(text)).None?
    case MItems(items) => forall i :: 0 <= i < |items| ==> MetadataRenders(items[i])
    case MFields(fields) => forall k :: k in fields ==> MetadataRenders(fields[k])
    case MOther(_) => true
  }

  /** Rendering metadata fails exactly when one of its texts, at whatever depth, has a bad hole. */
  lemma {:induction false} RenderMetadataIff(m: Metadata, env: Env, w: World)
    ensures RenderMetadata(m, env, w).Some? <==> MetadataRenders(m)
    decreases m, 0
  {
    hide Render, FirstBadHole, HoleNames;
    match m
    case MText(text) => RenderFailsIff(text, env, w);
    case MItems(items) => RenderItemsIff(items, env, w);
    case MFields(fields) =>
      forall k | k in fields ensures RenderMetadata(fields[k], env, w).Some? <==> MetadataRenders(fields[k]) {
        RenderMetadataIff(fields[k], env, w);
      }
    case MOther(_) =>
  }

  lemma {:induction false} RenderItemsIff(items: seq<Metadata>, env: Env, w: World)
    ensures RenderItems(items, env, w).Some? <==> forall i :: 0 <= i < |items| ==> MetadataRenders(items[i])
    decreases items, 1
  {
    hide RenderMetadata, MetadataRenders;
    if items != [] {
      RenderMetadataIff(items[0], env, w);
      RenderItemsIff(items[1..], env, w);
      assert forall i :: 0 < i < |items| ==> items[i] == items[1..][i - 1];
      assert forall i :: 0 <= i < |items[1..]| ==> items[1..][i] == items[i + 1];
    }
  }

  // ---------- Persisted contexts ----------

  /** Every document a persist makes holds no excluded and no sensitive key. */
  lemma PersistedIsHarmless(cfg: Config, core: Core, updatedAt: int, key: string)
    requires key in DocumentOf(cfg, core, updatedAt).context.value
    ensures key !in cfg.exclude && key in core.context
    ensures DocumentOf(cfg, core, updatedAt).context.value[key] == core.context[key]
    ensures !Contains(Lower(key), "token") && !Contains(Lower(key), "secret")
    ensures !Contains(Lower(key), "password") && !Contains(Lower(key), "credential")
  {
    SensitiveIff(key);
  }

  /** Restoring what was persisted gives back the state, the entry time and the filtered context; doing
      it again, persist and restore, changes nothing more. */
  lemma PersistThenRestore(cfg: Config, core: Core, other: Core, disk: Disk, o: Oracle, ignoreCorrupt: bool,
                           backupWorks: bool, now: int)
    requires cfg.persistent && o.disk == Saved
    ensures var saved := PersistTo(cfg, core, disk, o);
            var kept := core.(context := Kept(core.context, cfg.exclude));
            && Restore(cfg, other, saved, ignoreCorrupt, backupWorks, now) == (kept, saved, Restored)
            && Restore(cfg, other, PersistTo(cfg, kept, saved, o), ignoreCorrupt, backupWorks, now) == (kept, saved, Restored)
  {
    KeptTwice(core.context, cfg.exclude);
  }

  /** A state file from which this plugin restores. */
  predicate IsRestorable(cfg: Config, f: File) {
    f.Whole? && f.doc.schemaVersion == Some(1) && f.doc.name == Some(cfg.name) && f.doc.stateId.Some?
  }

  /** A restore succeeds exactly on a whole document of this plugin and schema that has a state; otherwise the
      state and the entry time stay as they were. No restore loses the file: it stays where it is, or, when
      corruption is to be ignored, it becomes the backup. */
  lemma RestoreIff(cfg: Config, core: Core, disk: Disk, ignoreCorrupt: bool, backupWorks: bool, now: int)
    ensures var (core', disk', r) := Restore(cfg, core, disk, ignoreCorrupt, backupWorks, now);
            && (r == Restored <==> cfg.persistent && IsRestorable(cfg, disk.target))
            && (r != Restored ==> core'.state == core.state && core'.enteredAt == core.enteredAt)
            && (r == Refused ==> disk' == disk)
            && (disk.target == Torn(true) && cfg.persistent ==> r == Refused)
            && disk'.tmp == disk.tmp
            && (disk'.target == disk.target ||
                 (ignoreCorrupt && r == Skipped && disk'.target == Absent && disk'.corrupt == disk.target))
            && (r == Skipped ==> core' == core)
  {
  }

  /** What exactly a restore does: nothing without a file; a file of another schema or plugin, or one cut off between
      characters, is refused, or, when corruption is to be ignored, skipped and moved aside if that works; a
      document without a state has put its context in place before it is refused; what a document leaves out is
      the empty context and the present time. */
  lemma RestoreExactly(cfg: Config, core: Core, disk: Disk, ignoreCorrupt: bool, backupWorks: bool, now: int)
    ensures var (core', disk', r) := Restore(cfg, core, disk, ignoreCorrupt, backupWorks, now);
            var f := disk.target;
            var foreign := f.Whole? && (f.doc.schemaVersion != Some(1) || f.doc.name != Some(cfg.name));
            if !cfg.persistent || f == Absent then (core', disk', r) == (core, disk, Skipped)
            else if f == Torn(true) then (core', disk', r) == (core, disk, Refused)
            else if f == Torn(false) || foreign then
              && core' == core
              && r == (if ignoreCorrupt then Skipped else Refused)
              && disk' == (if ignoreCorrupt && backupWorks then Disk(Absent, disk.tmp, f) else disk)
            else
              && disk' == disk
              && (f.doc.context.Some? ==> core'.context == f.doc.context.value)
              && (f.doc.context.None? ==> core'.context == map[])
              && (f.doc.stateId.None? ==> r == Refused && core'.state == core.state && core'.enteredAt == core.enteredAt)
              && (f.doc.stateId.Some? ==> r == Restored && core'.state == f.doc.stateId.value)
              && (f.doc.stateId.Some? && f.doc.enteredAt.Some? ==> core'.enteredAt == f.doc.enteredAt.value)
              && (f.doc.stateId.Some? && f.doc.enteredAt.None? ==> core'.enteredAt == now)
  {
  }
}
