/** The engine object of core/statechart.py: its fields, updated step by step, with its two files and
    the record of what it handed to the injected clients. Each method is proved against Chart. */
module Engine {
  import opened Text
  import opened Evaluator
  import opened Template
  import opened Filter
  import opened Chart

  class StatechartEngine {
    const cfg: Config
    var currentState: string
    var context: Context
    var stateEnteredAtMs: int
    var disk: Disk
    var effects: seq<Effect>

    function Snapshot(): Core
      reads this
    {
      Core(currentState, context, stateEnteredAtMs)
    }

    constructor (cfg: Config, disk: Disk, now: int)
      ensures this.cfg == cfg && this.disk == disk && effects == []
      ensures Snapshot() == Core(cfg.initial, cfg.initialContext, now)
    {
      this.cfg := cfg;
      this.disk := disk;
      currentState, context, stateEnteredAtMs := cfg.initial, cfg.initialContext, now;
      effects := [];
    }

    // ---------- Actions ----------

    /** `set_context`: render, recover the type, store, item by item. */
    method SetContextItems(run: Run, items: seq<(string, Source)>, k: nat) returns (status: Status)
      modifies `context
      ensures Outcome(context, [], status) == SetItems(run, old(context), items, k, 0)
    {
      var j := 0;
      while j < |items|
        invariant 0 <= j <= |items|
        invariant SetItems(run, old(context), items, k, 0) == SetItems(run, context, items, k, j)
      {
        var snap := run.o.actionSnap(k, j);
        var rendered := RenderSource(items[j].1, EnvOf(run, context, snap), snap.world);
        if rendered.RenderFailed? {
          return Raised;
        }
        var value := Recover(rendered.s, snap.world);
        if value.None? {
          return Raised;
        }
        context := context[items[j].0 := value.value];
        j := j + 1;
      }
      return Done;
    }

    method IncrementContext(run: Run, key: string, amount: int, k: nat) returns (status: Status)
      modifies `context
      ensures Outcome(context, [], status) == StartAction(run, Action.IncrementContext(key, amount), k, old(context))
    {
      var number := IntOf(if key in context then context[key] else Int(0), run.o.actionSnap(k, 0).world);
      if number.None? {
        return Raised;
      }
      context := context[key := Int(number.value + amount)];
      return Done;
    }

    /** `log`: one line, or the error of its template. */
    method WriteLog(run: Run, message: string, k: nat) returns (status: Status)
      modifies `effects
      ensures var d := DoAction(run, Log(message), k, context);
              d.context == context && effects == old(effects) + d.effects && status == d.status
    {
      var snap := run.o.actionSnap(k, 0);
      var line := Render(message, EnvOf(run, context, snap), snap.world);
      if line.RenderFailed? {
        return Raised;
      }
      effects := effects + [Logged(line.s)];
      return Done;
    }

    /** `reply_a2a`: refused without a message to reply to; otherwise rendered and handed to the injected reply. */
    method Reply(run: Run, template: string, k: nat) returns (status: Status)
      modifies `effects
      ensures var d := DoAction(run, ReplyA2A(template), k, context);
              d.context == context && effects == old(effects) + d.effects && status == d.status
    {
      if run.ev.messageId.None? || run.ev.messageId.value == "" {
        return ActionFailed;
      }
      var snap := run.o.actionSnap(k, 0);
      var text := Render(template, EnvOf(run, context, snap), snap.world);
      if text.RenderFailed? {
        return Raised;
      }
      effects := effects + [Replied(run.ev.messageId.value, text.s)];
      return run.o.handler(k).status;
    }

    /** `send_a2a`: text and metadata are rendered first; a TypeError of the first call, wherever it comes from,
        leads to a second call without metadata. */
    method Send(run: Run, peer: string, message: Source, metadata: Option<Metadata>, k: nat) returns (status: Status)
      modifies `effects
      ensures var d := DoAction(run, SendA2A(peer, message, metadata), k, context);
              d.context == context && effects == old(effects) + d.effects && status == d.status
    {
      hide Render, RenderMetadata, EnvOf;
      var snap := run.o.actionSnap(k, 0);
      var text := RenderSource(message, EnvOf(run, context, snap), snap.world);
      if text.RenderFailed? {
        return Raised;
      }
      var rendered: Option<Metadata> := None;
      if metadata.Some? {
        var later := run.o.actionSnap(k, 1);
        rendered := RenderMetadata(metadata.value, EnvOf(run, context, later), later.world);
        if rendered.None? {
          return Raised;
        }
      }
      var first := run.o.handler(k).firstCall;
      if first != TypeErrorAtCall {
        effects := effects + [Sent(peer, text.s, rendered, false)];
      }
      if first != NoTypeError {
        effects := effects + [Sent(peer, text.s, None, true)];
      }
      return run.o.handler(k).status;
    }

    /** An action of any other type: its registered handler, which may edit the context, or the error that there
        is none. */
    method CallHandler(run: Run, name: string, k: nat) returns (status: Status)
      requires run.cfg == cfg
      modifies `context, `effects
      ensures var d := DoAction(run, Custom(name), k, old(context));
              context == d.context && effects == old(effects) + d.effects && status == d.status
    {
      if name !in cfg.registered {
        return ActionFailed;
      }
      effects := effects + [Invoked(name)];
      context := run.o.handler(k).edit(context);
      return run.o.handler(k).status;
    }

    /** `_dispatch_action`: the a2a actions first, then the registry. */
    method DispatchAction(run: Run, action: Action, k: nat) returns (status: Status)
      requires run.cfg == cfg
      modifies `context, `effects
      ensures var d := DoAction(run, action, k, old(context));
              context == d.context && effects == old(effects) + d.effects && status == d.status
    {
      match action
      case Untyped =>
        return ActionFailed;
      case ReplyA2A(template) =>
        status := Reply(run, template, k);
      case SendA2A(peer, message, metadata) =>
        status := Send(run, peer, message, metadata, k);
      case Log(message) =>
        status := WriteLog(run, message, k);
      case SetContext(items) =>
        status := SetContextItems(run, items, k);
      case IncrementContext(key, amount) =>
        status := IncrementContext(run, key, amount, k);
      case Custom(name) =>
        status := CallHandler(run, name, k);
    }

    /** One of the two action loops of a firing: the actions from `lo` to `hi`. */
    method RunSlice(run: Run, actions: seq<Action>, lo: nat, hi: nat) returns (status: Status, ghost done: seq<Effect>)
      requires run.cfg == cfg && lo <= hi <= |actions|
      modifies `context, `effects
      ensures effects == old(effects) + done
      ensures status == Done ==>
                RunActions(run, actions, lo, old(context)) == After(done, RunActions(run, actions, hi, context))
      ensures status != Done ==>
                RunActions(run, actions, lo, old(context)) == Outcome(context, done, status)
    {
      hide DoAction;
      var k := lo;
      done := [];
      AfterNothing(RunActions(run, actions, lo, context));
      assert effects + done == effects;
      while k < hi
        invariant lo <= k <= hi
        invariant effects == old(effects) + done
        invariant RunActions(run, actions, lo, old(context)) == After(done, RunActions(run, actions, k, context))
      {
        ghost var first := DoAction(run, actions[k], k, context);
        UnfoldRun(run, actions, k, context, done);
        status := DispatchAction(run, actions[k], k);
        assert old(effects) + done + first.effects == old(effects) + (done + first.effects);
        done := done + first.effects;
        if status != Done {
          return;
        }
        k := k + 1;
      }
      status := Done;
    }

    // ---------- Transition ----------

    /** `_transition_locked`. */
    method Transition(ev: Event, o: Oracle) returns (r: TransitionResult)
      modifies this
      ensures var t := Chart.Transition(cfg, old(Snapshot()), old(disk), ev, o);
              Snapshot() == t.core && disk == t.disk && effects == old(effects) + t.effects && r == t.result
    {
      hide CheckGuard, DoAction, RunActions, ReasonOf, EntriesFor;
      var run := RunOf(cfg, Snapshot(), ev, o);
      var entries := EntriesFor(cfg, currentState, ev.kind);
      var i := 0;
      while i < |entries|
        invariant 0 <= i <= |entries|
        invariant Snapshot() == old(Snapshot()) && disk == old(disk) && effects == old(effects)
        invariant DecisionOf(cfg, old(Snapshot()), ev, o) == Scan(run, context, entries, i)
      {
        var t := entries[i];
        if t.Shorthand? {
          i := i + 1;
          continue;
        }
        var outcome := CheckGuard(run, context, t.guard, i);
        if outcome != Passed {
          return NoMatch(Some(ReasonOf(outcome)), Guard(outcome));
        }
        if t.target.None? || t.target.value == "" {
          i := i + 1;
          continue;
        }
        var target := t.target.value;
        if target !in cfg.states {
          return BadTarget(target);
        }
        r := Fire(run, entries, i, target);
        return;
      }
      return NoMatch(None, NoDetails);
    }

    /** Steps two to six of a transition: both action lists, the switch of state, the persist. */
    method Fire(run: Run, entries: seq<Entry>, i: nat, target: string) returns (r: TransitionResult)
      requires run.cfg == cfg && i < |entries| && entries[i].Entry? && target in cfg.states
      modifies this
      ensures var t := Conclude(cfg, old(Snapshot()), old(disk), target, run.o,
                                RunActions(run, FiredActions(cfg, entries, i, target), 0, old(context)));
              Snapshot() == t.core && disk == t.disk && effects == old(effects) + t.effects && r == t.result
    {
      hide DoAction, Kept;
      var actions := FiredActions(cfg, entries, i, target);
      var status, done := RunSlice(run, actions, 0, |entries[i].actions|);
      if status == Done {
        ghost var middle := context;
        ghost var more;
        status, more := RunSlice(run, actions, |entries[i].actions|, |actions|);
        AfterTwice(done, more, RunActions(run, actions, |actions|, context));
        assert After(done, Outcome(context, more, status)) == Outcome(context, done + more, status);
        assert old(effects) + done + more == old(effects) + (done + more);
        assert more + [] == more;
        done := done + more;
      }
      assert RunActions(run, actions, 0, old(context)) == Outcome(context, done, status);
      if status == ActionFailed {
        return NoMatch(None, NoDetails);
      }
      if status == Raised {
        return Exception;
      }
      currentState := target;
      stateEnteredAtMs := run.o.enteredClock;
      Persist(run.o);
      return Matched(target);
    }

    // ---------- Persistence ----------

    method Persist(o: Oracle)
      modifies `disk
      ensures disk == PersistTo(cfg, Snapshot(), old(disk), o)
    {
      if !cfg.persistent {
        return;
      }
      var persistable := PersistableOf(context, cfg.exclude);
      var doc := Document(Some(1), Some(cfg.name), cfg.version, Some(persistable),
                          Some(currentState), Some(stateEnteredAtMs), o.updatedClock);
      match o.disk
      case OpenFailed =>
      case WriteFailed(cutsChar) =>
        disk := disk.(tmp := Torn(cutsChar));
      case ReplaceFailed =>
        disk := disk.(tmp := Whole(doc));
      case Saved =>
        disk := disk.(tmp := Whole(doc));
        disk := disk.(target := disk.tmp, tmp := Absent);
    }

    method RestoreFromPersist(ignoreCorrupt: bool, backupWorks: bool, now: int) returns (r: RestoreResult)
      modifies this
      ensures (Snapshot(), disk, r) == Restore(cfg, old(Snapshot()), old(disk), ignoreCorrupt, backupWorks, now)
      ensures effects == old(effects)
    {
      if !cfg.persistent || disk.target == Absent {
        return Skipped;
      }
      if disk.target == Torn(true) {
        return Refused;
      }
      if disk.target.Torn? || disk.target.doc.schemaVersion != Some(1) || disk.target.doc.name != Some(cfg.name) {
        if !ignoreCorrupt {
          return Refused;
        }
        if backupWorks {
          disk := disk.(target := Absent, corrupt := disk.target);
        }
        return Skipped;
      }
      var doc := disk.target.doc;
      context := if doc.context.Some? then doc.context.value else map[];
      if doc.stateId.None? {
        return Refused;
      }
      currentState := doc.stateId.value;
      stateEnteredAtMs := if doc.enteredAt.Some? then doc.enteredAt.value else now;
      return Restored;
    }
  }

  lemma UnfoldRun(run: Run, actions: seq<Action>, k: nat, context: Context, done: seq<Effect>)
    requires k < |actions|
    ensures var first := DoAction(run, actions[k], k, context);
            After(done, RunActions(run, actions, k, context)) ==
            if first.status == Done then After(done + first.effects, RunActions(run, actions, k + 1, first.context))
            else Outcome(first.context, done + first.effects, first.status)
  {
    var first := DoAction(run, actions[k], k, context);
    if first.status == Done {
      AfterTwice(done, first.effects, RunActions(run, actions, k + 1, first.context));
    }
  }
}
