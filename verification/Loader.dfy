/** The static checks of core/loader.py on guards and targets, and what a plugin that passes them can
    rely on in every run. */
module Loader {
  import opened Text
  import opened Lexer
  import opened Parser
  import opened Evaluator
  import opened Chart
  import opened ChartFacts
  import opened Machine

  type States = map<string, StateDef>

  datatype LoadError =
    | GuardParse(state: string, event: string, guard: string)
    | TargetMissing(state: string, event: string, target: string)
    | ExhaustMissing(target: string)

  // ---------- What is an error ----------

  predicate BadGuard(e: Entry) {
    e.Entry? && e.guard.Some? && Parse(e.guard.value).None?
  }

  predicate BadTarget(states: States, e: Entry) {
    e.Entry? && e.target.Some? && e.target.value !in states
  }

  /** The `i`-th entry for an event in a state. */
  predicate IsEntry(states: States, state: string, event: string, i: nat) {
    state in states && event in states[state].on && i < |EntriesOf(states[state].on[event])|
  }

  function EntryAt(states: States, state: string, event: string, i: nat): Entry
    requires IsEntry(states, state, event, i)
  {
    EntriesOf(states[state].on[event])[i]
  }

  ghost predicate IsGuardError(states: States, err: LoadError) {
    && err.GuardParse?
    && exists i: nat :: IsEntry(states, err.state, err.event, i)
         && BadGuard(EntryAt(states, err.state, err.event, i)) && EntryAt(states, err.state, err.event, i).guard.value == err.guard
  }

  ghost predicate IsTargetError(states: States, err: LoadError) {
    && err.TargetMissing?
    && exists i: nat :: IsEntry(states, err.state, err.event, i)
         && BadTarget(states, EntryAt(states, err.state, err.event, i)) && EntryAt(states, err.state, err.event, i).target.value == err.target
  }

  ghost predicate GuardsParse(states: States) {
    forall state, event, i: nat :: IsEntry(states, state, event, i) ==> !BadGuard(EntryAt(states, state, event, i))
  }

  ghost predicate TargetsDeclared(states: States) {
    forall state, event, i: nat :: IsEntry(states, state, event, i) ==> !BadTarget(states, EntryAt(states, state, event, i))
  }

  // ---------- The checks, as loops ----------

  /** The errors of one entry list, in order. */
  function GuardErrorsOf(entries: seq<Entry>, state: string, event: string, n: nat): seq<LoadError>
    requires n <= |entries|
  {
    if n == 0 then [] else
    GuardErrorsOf(entries, state, event, n - 1) +
    (if BadGuard(entries[n - 1]) then [GuardParse(state, event, entries[n - 1].guard.value)] else [])
  }

  lemma {:induction false} GuardErrorsOfMember(entries: seq<Entry>, state: string, event: string, n: nat, err: LoadError)
    requires n <= |entries|
    ensures err in GuardErrorsOf(entries, state, event, n) <==>
              err.GuardParse? && err.state == state && err.event == event &&
              exists i: nat :: i < n && BadGuard(entries[i]) && entries[i].guard.value == err.guard
  {
    hide BadGuard;
    if n > 0 {
      GuardErrorsOfMember(entries, state, event, n - 1, err);
    }
  }

  /** `_validate_guards`: every guard that does not parse, and nothing else, is reported. */
  method ValidateGuards(states: States) returns (errors: seq<LoadError>)
    ensures forall err :: err in errors <==> IsGuardError(states, err)
    ensures errors == [] <==> GuardsParse(states)
  {
    errors := [];
    var left := states.Keys;
    while left != {}
      invariant left <= states.Keys
      invariant forall err :: err in errors <==> IsGuardError(states, err) && err.state !in left
      decreases left
    {
      var state :| state in left;
      left := left - {state};
      var found := ValidateGuardsIn(states, state);
      errors := errors + found;
    }
    NoGuardErrors(states, errors);
  }

  method ValidateGuardsIn(states: States, state: string) returns (errors: seq<LoadError>)
    requires state in states
    ensures forall err :: err in errors <==> IsGuardError(states, err) && err.state == state
  {
    errors := [];
    var on := states[state].on;
    var left := on.Keys;
    while left != {}
      invariant left <= on.Keys
      invariant forall err :: err in errors <==> IsGuardError(states, err) && err.state == state && err.event !in left
      decreases left
    {
      var event :| event in left;
      left := left - {event};
      var entries := EntriesOf(on[event]);
      var i := 0;
      var found: seq<LoadError> := [];
      while i < |entries|
        invariant 0 <= i <= |entries|
        invariant found == GuardErrorsOf(entries, state, event, i)
      {
        if entries[i].Entry? && entries[i].guard.Some? {
          var parsed := ParseText(entries[i].guard.value);
          if parsed.None? {
            found := found + [GuardParse(state, event, entries[i].guard.value)];
          }
        }
        i := i + 1;
      }
      forall err ensures err in found <==> IsGuardError(states, err) && err.state == state && err.event == event {
        GuardErrorsOfMember(entries, state, event, |entries|, err);
        if err.GuardParse? && err.state == state && err.event == event {
          EntryGuardErrors(states, state, event, err);
        }
      }
      errors := errors + found;
    }
  }

  lemma EntryGuardErrors(states: States, state: string, event: string, err: LoadError)
    requires state in states && event in states[state].on
    requires err.GuardParse? && err.state == state && err.event == event
    ensures var entries := EntriesOf(states[state].on[event]);
            IsGuardError(states, err) <==>
              exists i: nat :: i < |entries| && BadGuard(entries[i]) && entries[i].guard.value == err.guard
  {
    hide BadGuard;
    var entries := EntriesOf(states[state].on[event]);
    forall i: nat | i < |entries| ensures IsEntry(states, state, event, i) && EntryAt(states, state, event, i) == entries[i] {}
  }

  lemma NoGuardErrors(states: States, errors: seq<LoadError>)
    requires forall err :: err in errors <==> IsGuardError(states, err)
    ensures errors == [] <==> GuardsParse(states)
  {
    if errors != [] {
      assert errors[0] in errors;
    }
    forall state, event, i: nat | IsEntry(states, state, event, i) && BadGuard(EntryAt(states, state, event, i))
      ensures errors != []
    {
      assert IsGuardError(states, GuardParse(state, event, EntryAt(states, state, event, i).guard.value));
    }
  }

  function TargetErrorsOf(states: States, entries: seq<Entry>, state: string, event: string, n: nat): seq<LoadError>
    requires n <= |entries|
  {
    if n == 0 then [] else
    TargetErrorsOf(states, entries, state, event, n - 1) +
    (if BadTarget(states, entries[n - 1]) then [TargetMissing(state, event, entries[n - 1].target.value)] else [])
  }

  lemma {:induction false} TargetErrorsOfMember(states: States, entries: seq<Entry>, state: string, event: string, n: nat, err: LoadError)
    requires n <= |entries|
    ensures err in TargetErrorsOf(states, entries, state, event, n) <==>
              err.TargetMissing? && err.state == state && err.event == event &&
              exists i: nat :: i < n && BadTarget(states, entries[i]) && entries[i].target.value == err.target
  {
    hide BadTarget;
    if n > 0 {
      TargetErrorsOfMember(states, entries, state, event, n - 1, err);
    }
  }

  ghost predicate IsExhaustError(states: States, onExhaust: Option<string>, err: LoadError) {
    onExhaust.Some? && onExhaust.value != "" && onExhaust.value !in states && err == ExhaustMissing(onExhaust.value)
  }

  /** `_validate_targets`: every target that is not a declared state, the exhaustion target included, and
      nothing else, is reported. */
  method ValidateTargets(states: States, onExhaust: Option<string>) returns (errors: seq<LoadError>)
    ensures forall err :: err in errors <==> IsTargetError(states, err) || IsExhaustError(states, onExhaust, err)
    ensures errors == [] ==> TargetsDeclared(states)
  {
    errors := [];
    if onExhaust.Some? && onExhaust.value != "" && onExhaust.value !in states {
      errors := [ExhaustMissing(onExhaust.value)];
    }
    var left := states.Keys;
    while left != {}
      invariant left <= states.Keys
      invariant forall err :: err in errors <==>
                  (IsTargetError(states, err) && err.state !in left) || IsExhaustError(states, onExhaust, err)
      decreases left
    {
      var state :| state in left;
      left := left - {state};
      var found := ValidateTargetsIn(states, state);
      errors := errors + found;
    }
    NoTargetErrors(states, errors);
  }

  method ValidateTargetsIn(states: States, state: string) returns (errors: seq<LoadError>)
    requires state in states
    ensures forall err :: err in errors <==> IsTargetError(states, err) && err.state == state
  {
    errors := [];
    var on := states[state].on;
    var left := on.Keys;
    while left != {}
      invariant left <= on.Keys
      invariant forall err :: err in errors <==> IsTargetError(states, err) && err.state == state && err.event !in left
      decreases left
    {
      var event :| event in left;
      left := left - {event};
      var entries := EntriesOf(on[event]);
      var i := 0;
      var found: seq<LoadError> := [];
      while i < |entries|
        invariant 0 <= i <= |entries|
        invariant found == TargetErrorsOf(states, entries, state, event, i)
      {
        if entries[i].Entry? && entries[i].target.Some? && entries[i].target.value !in states {
          found := found + [TargetMissing(state, event, entries[i].target.value)];
        }
        i := i + 1;
      }
      forall err ensures err in found <==> IsTargetError(states, err) && err.state == state && err.event == event {
        TargetErrorsOfMember(states, entries, state, event, |entries|, err);
        if err.TargetMissing? && err.state == state && err.event == event {
          EntryTargetErrors(states, state, event, err);
        }
      }
      errors := errors + found;
    }
  }

  lemma EntryTargetErrors(states: States, state: string, event: string, err: LoadError)
    requires state in states && event in states[state].on
    requires err.TargetMissing? && err.state == state && err.event == event
    ensures var entries := EntriesOf(states[state].on[event]);
            IsTargetError(states, err) <==>
              exists i: nat :: i < |entries| && BadTarget(states, entries[i]) && entries[i].target.value == err.target
  {
    hide BadTarget;
    var entries := EntriesOf(states[state].on[event]);
    forall i: nat | i < |entries| ensures IsEntry(states, state, event, i) && EntryAt(states, state, event, i) == entries[i] {}
  }

  lemma NoTargetErrors(states: States, errors: seq<LoadError>)
    requires forall err :: IsTargetError(states, err) ==> err in errors
    ensures errors == [] ==> TargetsDeclared(states)
  {
    forall state, event, i: nat | IsEntry(states, state, event, i) && BadTarget(states, EntryAt(states, state, event, i))
      ensures errors != []
    {
      assert IsTargetError(states, TargetMissing(state, event, EntryAt(states, state, event, i).target.value));
    }
  }

  // ---------- What a checked plugin can rely on ----------

  /** A result that shows a guard that did not parse, or a target that is no state. */
  predicate ShowsLoadError(r: TransitionResult) {
    || r.BadTarget?
    || (r.NoMatch? && r.details.Guard? && r.details.outcome.WentWrong? && r.details.outcome.error == SyntaxError)
  }

  /** In a checked plugin, from any state and on any event, no guard fails to parse, no target is
      undeclared, and a state that is entered is declared. */
  lemma CheckedTransition(cfg: Config, core: Core, disk: Disk, ev: Event, o: Oracle)
    requires GuardsParse(cfg.states) && TargetsDeclared(cfg.states)
    ensures var t := Transition(cfg, core, disk, ev, o);
            && !ShowsLoadError(t.result)
            && (t.result.Matched? ==> t.result.target in cfg.states && t.core.state == t.result.target)
            && (!t.result.Matched? ==> t.core.state == core.state)
  {
    hide RunActions, PersistTo, Evaluate, Parse, EntriesOf;
    var run, entries := RunOf(cfg, core, ev, o), EntriesFor(cfg, core.state, ev.kind);
    ScanIsFirstVerdict(run, core.context, entries, 0);
    ScanFires(run, core.context, entries, 0);
    var d := DecisionOf(cfg, core, ev, o);
    if d.Blocked? || d.Undeclared? {
      var i := FindDecisive(run, core.context, entries, 0);
      assert IsEntry(cfg.states, core.state, ev.kind, i) && EntryAt(cfg.states, core.state, ev.kind, i) == entries[i];
    }
  }

  lemma {:induction false} FindDecisive(run: Run, context: Context, entries: seq<Entry>, i: nat) returns (d: nat)
    requires i <= |entries| && Scan(run, context, entries, i) != Unmatched
    ensures FirstDecisive(run, context, entries, i, d)
    decreases |entries| - i
  {
    hide CheckGuard;
    if Decisive(run, context, entries, i) {
      d := i;
    } else {
      d := FindDecisive(run, context, entries, i + 1);
    }
  }

  /** Over any sequence of acquisitions of a checked plugin, no result shows a load error, and the state
      is declared if the first one was. */
  lemma {:induction false} CheckedRuns(cfg: Config, z: Serial, log: seq<Acquisition>)
    requires GuardsParse(cfg.states) && TargetsDeclared(cfg.states)
    ensures var end := Replay(cfg, z, log);
            && |end.results| == |z.results| + |log|
            && (forall i :: 0 <= i < |z.results| ==> end.results[i] == z.results[i])
            && (forall i :: |z.results| <= i < |end.results| ==> !ShowsLoadError(end.results[i]))
            && (z.core.state in cfg.states ==> end.core.state in cfg.states)
    decreases |log|
  {
    hide Transition, GuardsParse, TargetsDeclared, ShowsLoadError;
    if log != [] {
      var front, a := log[..|log| - 1], log[|log| - 1];
      CheckedRuns(cfg, z, front);
      var before := Replay(cfg, z, front);
      CheckedTransition(cfg, before.core, before.disk, a.ev, a.o);
    }
  }

  /** At every point of any run of the concurrent engine of a checked plugin, no result since the process began
      or last reloaded its file shows a load error; and whenever the lock is free, the state is declared if the
      one it began or reloaded with is. */
  lemma CheckedMachine(cfg: Config, disk: Disk, now: int, steps: seq<Step>)
    requires GuardsParse(cfg.states) && TargetsDeclared(cfg.states)
    requires Exec(cfg, Init(cfg, disk, now), steps).Some?
    ensures var s := Exec(cfg, Init(cfg, disk, now), steps).value;
            && (forall i :: |s.base.results| <= i < |s.results| ==> !ShowsLoadError(s.results[i]))
            && (s.lock.None? && s.base.core.state in cfg.states ==> s.core.state in cfg.states)
  {
    hide Exec, Init, Replay, GuardsParse, TargetsDeclared, ShowsLoadError, Machine.Inv, Linear;
    var s := Exec(cfg, Init(cfg, disk, now), steps).value;
    InitKeepsInv(cfg, disk, now);
    RunKeepsInv(cfg, Init(cfg, disk, now), steps);
    Linearizable(cfg, disk, now, steps);
    CheckedRuns(cfg, s.base, s.log);
    CheckedResults(cfg, s, Replay(cfg, s.base, s.log).results);
  }

  lemma CheckedResults(cfg: Config, s: Sys, all: seq<TransitionResult>)
    requires Machine.Inv(cfg, s) && all == Replay(cfg, s.base, s.log).results
    requires forall i :: |s.base.results| <= i < |all| ==> !ShowsLoadError(all[i])
    ensures forall i :: |s.base.results| <= i < |s.results| ==> !ShowsLoadError(s.results[i])
  {
    var rest := ResultsToCome(cfg, s);
    hide Machine.Inv, Replay, ShowsLoadError;
    assert forall i :: 0 <= i < |s.results| ==> all[i] == s.results[i];
  }

  /** The guard check is needed: when the first entry of a state has a guard that does not parse and is
      not empty, every event of its kind in that state ends in the syntax error. */
  lemma UncheckedGuardFails(cfg: Config, core: Core, disk: Disk, ev: Event, o: Oracle)
    requires IsEntry(cfg.states, core.state, ev.kind, 0) && BadGuard(EntryAt(cfg.states, core.state, ev.kind, 0))
    requires EntryAt(cfg.states, core.state, ev.kind, 0).guard.value != ""
    ensures ShowsLoadError(Transition(cfg, core, disk, ev, o).result)
  {
    hide Parse, EntriesOf;
    var run, entries := RunOf(cfg, core, ev, o), EntriesFor(cfg, core.state, ev.kind);
    assert CheckGuard(run, core.context, entries[0].guard, 0) == WentWrong(entries[0].guard.value, SyntaxError);
    assert FirstDecisive(run, core.context, entries, 0, 0);
    ScanIsFirstVerdict(run, core.context, entries, 0);
  }

  /** So is the target check: when the first entry of a state has no guard and a target that is no state, every event
      of its kind in that state ends in the error of the undeclared target. */
  lemma UncheckedTargetFails(cfg: Config, core: Core, disk: Disk, ev: Event, o: Oracle, target: string)
    requires IsEntry(cfg.states, core.state, ev.kind, 0) && target != "" && target !in cfg.states
    requires var e := EntryAt(cfg.states, core.state, ev.kind, 0); e.Entry? && e.guard.None? && e.target == Some(target)
    ensures BadTarget(cfg.states, EntryAt(cfg.states, core.state, ev.kind, 0))
    ensures Transition(cfg, core, disk, ev, o).result == TransitionResult.BadTarget(target)
  {
    hide EntriesOf, RunActions;
    var run, entries := RunOf(cfg, core, ev, o), EntriesFor(cfg, core.state, ev.kind);
    assert FirstDecisive(run, core.context, entries, 0, 0);
    ScanIsFirstVerdict(run, core.context, entries, 0);
  }

  /** What is checked, entry by entry: the guards that are there parse, and the targets that are there are states. */
  lemma CheckedMeans(states: States)
    ensures GuardsParse(states) <==>
              forall state, event, i: nat :: IsEntry(states, state, event, i) ==>
                var e := EntryAt(states, state, event, i); e.Entry? && e.guard.Some? ==> Parse(e.guard.value).Some?
    ensures TargetsDeclared(states) <==>
              forall state, event, i: nat :: IsEntry(states, state, event, i) ==>
                var e := EntryAt(states, state, event, i); e.Entry? && e.target.Some? ==> e.target.value in states
  {
    hide Parse, EntriesOf;
  }

  /** The check is stricter than the engine on the empty guard only: the loader reports it, the engine
      skips it. */
  lemma EmptyGuard(run: Run, context: Context, i: nat)
    ensures Parse("").None? && CheckGuard(run, context, Some(""), i) == Passed
  {
    assert Lex("") == Some([]);
  }
}
