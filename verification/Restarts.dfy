/** Alerts across restarts of the process: a round is alerted again exactly when the initial poll of the new
    process showed less. */
module Restarts {
  import opened Text
  import opened PyFloat
  import opened Grammar
  import opened Evaluator
  import opened Template
  import opened Chart
  import opened ChartFacts
  import opened Machine
  import opened OwnerAlert
  import opened Poller
  import opened AlertSystem

  // ---------- A transition that sends ----------

  /** An owner-alert plugin whose log line, text and metadata have no bad hole. */
  ghost predicate IsSendingAlert(cfg: Config) {
    exists a, b, message, peer, text, metadata ::
      && IsAlias(a) && IsAlias(b)
      && cfg == AlertConfig(a, b, message, peer, Textual(text), metadata, cfg.name, cfg.version, cfg.meta, cfg.persistent, cfg.exclude)
      && FirstBadHole(HoleNames(message)).None? && FirstBadHole(HoleNames(text)).None?
      && (metadata.Some? ==> MetadataRenders(metadata.value))
  }

  /** A world in which every history object answers yes, and the send works. */
  function Willing(): World {
    World((v, key) => Obj(0), (v, name) => true, (v, name, args) => Returned(Bool(true)), id => true,
          v => "", text => 0.0, text => None, text => None)
  }

  function WillingSnap(): Snap {
    Snap(0, 0, Obj(0), Obj(0), Willing())
  }

  function WillingOracle(): Oracle {
    Oracle(i => WillingSnap(), (i, j) => WillingSnap(), i => HandlerOutcome(c => c, NoTypeError, Done), 0, 0, Saved)
  }

  lemma WillingTest(a: string, b: string, run: Run, context: Context)
    ensures PeerTest(a, b, EnvOf(run, context, WillingSnap()), Willing())
  {
    var env, w := EnvOf(run, context, WillingSnap()), Willing();
    var path := ["peers", a, "history", "last_inbound_contains"];
    assert path[..3] == ["peers", a, "history"];
    var keys := ["peers", a, "history"][1..];
    assert keys == [a, "history"] && keys[1..] == ["history"] && keys[1..][1..] == [];
    assert Walk(Obj(0), keys, w) == Obj(0) by {
      assert Walk(Obj(0), keys[1..][1..], w) == Obj(0);
      assert Walk(Obj(0), keys[1..], w) == Obj(0);
    }
    assert ResolvePath(env, path[..3], w) == Ok(Obj(0));
    WillingCall(env, a);
  }

  lemma {:induction false} WillingCall(env: Env, a: string)
    requires ResolvePath(env, ["peers", a, "history", "last_inbound_contains"][..3], Willing()) == Ok(Obj(0))
    ensures Evaluate(TestSyntax(a), env, Willing()) == Ok(Bool(true))
  {
    hide ResolvePath;
    var args := [Lit(LString("urgent:"))];
    assert args[1..] == [];
    assert EvaluateAll(args[1..], env, Willing()) == Values([]);
    assert EvaluateAll(args, env, Willing()).Values?;
  }

  /** The log line is written when its template has no bad hole, and so is the alert. */
  lemma LogRenders(run: Run, context: Context, message: string, k: nat)
    requires FirstBadHole(HoleNames(message)).None?
    ensures StartAction(run, Log(message), k, context).status == Done
  {
    var snap := run.o.actionSnap(k, 0);
    RenderFailsIff(message, EnvOf(run, context, snap), snap.world);
    hide Render, EnvOf, FirstBadHole, HoleNames;
  }

  lemma SendRenders(run: Run, context: Context, peer: string, text: string, metadata: Option<Metadata>, k: nat)
    requires FirstBadHole(HoleNames(text)).None?
    requires metadata.Some? ==> MetadataRenders(metadata.value)
    ensures StartAction(run, SendA2A(peer, Textual(text), metadata), k, context).status == Done
  {
    hide Render, EnvOf, FirstBadHole, HoleNames, RenderMetadata, MetadataRenders;
    var s0, s1 := run.o.actionSnap(k, 0), run.o.actionSnap(k, 1);
    RenderFailsIff(text, EnvOf(run, context, s0), s0.world);
    if metadata.Some? {
      RenderMetadataIff(metadata.value, EnvOf(run, context, s1), s1.world);
    }
  }

  /** In the willing world the guard passes for a round above the remembered one. */
  lemma WillingGuard(a: string, b: string, run: Run, context: Context, round: int)
    requires IsAlias(a) && IsAlias(b) && run.o == WillingOracle()
    requires LAST in context && context[LAST] == Int(0) && 0 < round && ToFloat(round).Some?
    requires "new_round" in run.ev.payload && run.ev.payload["new_round"] == Int(round)
    ensures CheckGuard(run, context, Some(GuardText(a, b)), 0) == Passed
  {
    WillingTest(a, b, run, context);
    ToFloatExact(0);
    ToFloatExact(1);
    ToFloatMonotone(1, round);
    hide PeerTest, ToFloat, CheckGuard, EnvOf, GuardText, IsAlias;
    GuardIff(a, b, run, context, 0, round, 0);
  }

  lemma ToEventRound(f: Fired, granularity: string)
    ensures var ev := ToEvent(f, granularity);
            ev.kind == "history_change" && "new_round" in ev.payload && ev.payload["new_round"] == Int(f.newRound)
  {
  }

  /** In the willing world a round above the remembered one is alerted. */
  lemma WillingSends(cfg: Config, core: Core, disk: Disk, f: Fired, granularity: string)
    requires IsSendingAlert(cfg) && Watches(core, 0) && 0 < f.newRound && ToFloat(f.newRound).Some?
    ensures Sends(Transition(cfg, core, disk, ToEvent(f, granularity), WillingOracle()).effects) > 0
  {
    hide IsAlias, FirstBadHole, HoleNames, MetadataRenders, AlertConfig, GuardText, CheckGuard, StartAction, Transition, WillingOracle, ToEvent;
    var a, b, message, peer, text, metadata :|
      && IsAlias(a) && IsAlias(b)
      && cfg == AlertConfig(a, b, message, peer, Textual(text), metadata, cfg.name, cfg.version, cfg.meta, cfg.persistent, cfg.exclude)
      && FirstBadHole(HoleNames(message)).None? && FirstBadHole(HoleNames(text)).None?
      && (metadata.Some? ==> MetadataRenders(metadata.value));
    var ev, o := ToEvent(f, granularity), WillingOracle();
    var run, c := RunOf(cfg, core, ev, o), core.context[LAST := Int(f.newRound)];
    ToEventRound(f, granularity);
    WillingGuard(a, b, run, core.context, f.newRound);
    LogRenders(run, c, message, 1);
    SendRenders(run, c, peer, text, metadata, SEND);
    var after := AlertStepOf(cfg, a, b, message, peer, Textual(text), metadata, core, disk, ev, o, 0);
  }

  // ---------- A run that alerts ----------

  lemma {:induction false} MovedConcat(cfg: Config, w: System, a: seq<Move>, b: seq<Move>)
    requires Moved(cfg, w, a).Some?
    ensures Moved(cfg, w, a + b) == Moved(cfg, Moved(cfg, w, a).value, b)
    decreases |a|
  {
    hide Possible, Next;
    if a == [] {
      assert a + b == b;
    } else {
      assert (a + b)[0] == a[0] && (a + b)[1..] == a[1..] + b;
      MovedConcat(cfg, Next(cfg, w, a[0]), a[1..], b);
    }
  }

  lemma MovedOnce(cfg: Config, w: System, m: Move)
    requires Possible(cfg, w, m)
    ensures Moved(cfg, w, [m]) == Some(Next(cfg, w, m))
  {
    hide Possible, Next;
    assert [m][1..] == [];
    assert Moved(cfg, Next(cfg, w, m), []) == Some(Next(cfg, w, m));
  }

  /** One more move after a run. */
  lemma MoveOn(cfg: Config, w: System, moves: seq<Move>, v: System, m: Move)
    requires Moved(cfg, w, moves) == Some(v) && Possible(cfg, v, m)
    ensures Moved(cfg, w, moves + [m]) == Some(Next(cfg, v, m))
  {
    hide Moved, Possible, Next;
    MovedConcat(cfg, w, moves, [m]);
    MovedOnce(cfg, v, m);
  }

  /** The engine alone, as moves of the system. */
  lemma {:induction false} EngineAlone(cfg: Config, w: System, steps: seq<Machine.Step>) returns (moves: seq<Move>)
    requires Exec(cfg, w.sys, steps).Some? && forall i :: 0 <= i < |steps| ==> Internal(steps[i])
    ensures Moved(cfg, w, moves) == Some(w.(sys := Exec(cfg, w.sys, steps).value))
    decreases |steps|
  {
    hide Apply, Enabled;
    if steps == [] {
      moves := [];
    } else {
      var m := Engine(steps[0]);
      assert Internal(steps[0]) && Possible(cfg, w, m);
      var rest := EngineAlone(cfg, Next(cfg, w, m), steps[1..]);
      moves := [m] + rest;
      assert moves[1..] == rest;
    }
  }

  /** A process that has done nothing yet. */
  ghost predicate IsFresh(cfg: Config, w: System) {
    && Machine.Inv(cfg, w.sys) && w.watchers == map[] && w.sys.tasks == map[]
    && w.sys.lock.None? && w.sys.writer.None? && w.sys.log == []
    && Watches(w.sys.core, 0) && w.sys.base == Serial(w.sys.core, w.sys.disk, w.sys.effects, w.sys.results)
  }

  /** How a poller begins: what it watches and what its initial poll shows. */
  datatype Initial = Initial(watch: Watch, rows: seq<PeerRow>)

  function StartOf(x: Initial): map<string, int> {
    TakeRows(x.watch, map[], x.rows)
  }

  function NewWatcher(x: Initial): Watcher {
    Watcher(x.watch, "round", StartOf(x), [], [], None, StartOf(x), [])
  }

  /** The first `n` pollers, just set up. */
  ghost predicate SetUp(watchers: map<nat, Watcher>, inits: seq<Initial>, n: nat)
    requires n <= |inits|
  {
    && (forall i: nat :: i in watchers <==> i < n)
    && (forall i: nat :: i in watchers ==> watchers[i] == NewWatcher(inits[i]))
  }

  lemma SetUpOneMore(watchers: map<nat, Watcher>, inits: seq<Initial>, n: nat)
    requires n < |inits| && SetUp(watchers, inits, n)
    ensures n !in watchers && SetUp(watchers[n := NewWatcher(inits[n])], inits, n + 1)
  {
    hide NewWatcher;
  }

  /** All pollers are set up. */
  lemma {:induction false} SetUpAll(cfg: Config, w: System, inits: seq<Initial>, n: nat) returns (moves: seq<Move>, v: System)
    requires w.watchers == map[] && n <= |inits|
    ensures Moved(cfg, w, moves) == Some(v) && v.sys == w.sys && v.past == w.past && SetUp(v.watchers, inits, n)
  {
    if n == 0 {
      moves, v := [], w;
    } else {
      var front, u := SetUpAll(cfg, w, inits, n - 1);
      SetUpOneMore(u.watchers, inits, n - 1);
      var x := inits[n - 1];
      var last := Setup(n - 1, x.watch, "round", Rows(x.rows));
      hide Moved, SetUp, TakeRows;
      v := Next(cfg, u, last);
      assert v.watchers == u.watchers[n - 1 := NewWatcher(x)];
      MoveOn(cfg, w, front, u, last);
      hide Next, Possible;
      moves := front + [last];
    }
  }

  /** What the `i`-th poller fires when it is shown round `r` of the peer `key`. */
  function RiseOf(x: Initial, key: string, r: int): Fired {
    var q := RoundOf(StartOf(x), key);
    Fired(key, q, r, r - q)
  }

  function ShownRow(x: Initial, key: string, r: int): Watcher {
    NewWatcher(x).(rest := [PeerRow(key, "", r)])
  }

  lemma RowFires(x: Initial, key: string, r: int)
    requires Matches(x.watch, key) && RoundOf(StartOf(x), key) < r
    ensures Fires(ShownRow(x, key, r)) == Some(RiseOf(x, key, r))
  {
    hide Matches, StartOf;
    assert KeyOf(PeerRow(key, "", r)) == key;
  }

  /** The pollers of a process, each as it began. */
  ghost predicate BeganAs(watchers: map<nat, Watcher>, inits: seq<Initial>) {
    && (forall i: nat :: i in watchers <==> i < |inits|)
    && (forall i: nat :: i in watchers ==> watchers[i].watch == inits[i].watch && watchers[i].start == StartOf(inits[i]))
  }

  lemma SetUpBegan(watchers: map<nat, Watcher>, inits: seq<Initial>)
    requires SetUp(watchers, inits, |inits|)
    ensures BeganAs(watchers, inits)
  {
    hide StartOf;
  }

  /** A poller goes on as it began. */
  lemma BeganKept(watchers: map<nat, Watcher>, inits: seq<Initial>, i: nat, y: Watcher)
    requires BeganAs(watchers, inits) && i < |inits| && y.watch == watchers[i].watch && y.start == watchers[i].start
    ensures BeganAs(watchers[i := y], inits)
  {
    hide StartOf;
  }

  /** The pollers are set up, and one of them polls again and is shown one row. */
  lemma RowShown(cfg: Config, w: System, inits: seq<Initial>, i: nat, key: string, r: int) returns (moves: seq<Move>, v: System)
    requires w.watchers == map[] && i < |inits|
    ensures Moved(cfg, w, moves) == Some(v) && v.sys == w.sys && v.past == w.past
    ensures BeganAs(v.watchers, inits) && i in v.watchers && v.watchers[i] == ShownRow(inits[i], key, r)
  {
    var front, u := SetUpAll(cfg, w, inits, |inits|);
    SetUpBegan(u.watchers, inits);
    assert i in u.watchers && u.watchers[i] == NewWatcher(inits[i]);
    BeganKept(u.watchers, inits, i, ShownRow(inits[i], key, r));
    hide Moved, StartOf, SetUp, BeganAs;
    var poll := Polled(i, Rows([PeerRow(key, "", r)]));
    v := Next(cfg, u, poll);
    MoveOn(cfg, w, front, u, poll);
    moves := front + [poll];
  }

  /** The row fires, and its event waits for the lock. */
  lemma RowArrives(cfg: Config, w: System, inits: seq<Initial>, i: nat, key: string, r: int) returns (v: System)
    requires i < |inits| && Matches(inits[i].watch, key) && RoundOf(StartOf(inits[i]), key) < r
    requires BeganAs(w.watchers, inits) && i in w.watchers && w.watchers[i] == ShownRow(inits[i], key, r)
    requires Machine.Inv(cfg, w.sys) && w.sys.tasks == map[] && w.sys.writer.None?
    ensures Possible(cfg, w, See(i, 0)) && v == Next(cfg, w, See(i, 0)) && Machine.Inv(cfg, v.sys)
    ensures v.past == w.past && BeganAs(v.watchers, inits)
    ensures v.sys == w.sys.(tasks := map[0 := Waiting(ToEvent(RiseOf(inits[i], key, r), "round"))])
  {
    RowFires(inits[i], key, r);
    var x, f := ShownRow(inits[i], key, r), RiseOf(inits[i], key, r);
    assert x.granularity == "round" && x.rest != [] && x.pending.None?;
    hide Fires, ToEvent, Machine.Inv, RiseOf, StartOf, BeganAs, Matches, ShownRow, Apply, Enabled;
    EventArrives(cfg, w.sys, ToEvent(f, "round"));
    SeeFires(cfg, w, i, x, f, ToEvent(f, "round"));
    BeganKept(w.watchers, inits, i, x.(fired := x.fired + [f], pending := Some(0)));
    v := Next(cfg, w, See(i, 0));
    hide Next, Possible;
  }

  lemma EventArrives(cfg: Config, s: Sys, ev: Event)
    requires Machine.Inv(cfg, s) && s.tasks == map[] && s.writer.None?
    ensures Machine.Enabled(cfg, s, Arrive(0, ev)) && Machine.Inv(cfg, Machine.Apply(cfg, s, Arrive(0, ev)))
    ensures Machine.Apply(cfg, s, Arrive(0, ev)) == s.(tasks := map[0 := Waiting(ev)])
  {
    StepKeepsInv(cfg, s, Arrive(0, ev));
    hide Machine.Inv;
  }

  /** Seeing a row that fires. */
  lemma SeeFires(cfg: Config, w: System, i: nat, x: Watcher, f: Fired, ev: Event)
    requires i in w.watchers && w.watchers[i] == x && x.rest != [] && x.pending.None? && Fires(x) == Some(f)
    requires ev == ToEvent(f, x.granularity) && Machine.Enabled(cfg, w.sys, Arrive(0, ev))
    ensures Possible(cfg, w, See(i, 0))
    ensures Next(cfg, w, See(i, 0)) ==
              System(Machine.Apply(cfg, w.sys, Arrive(0, ev)), w.watchers[i := x.(fired := x.fired + [f], pending := Some(0))], w.past)
  {
    hide Fires, ToEvent, Apply;
  }

  /** A waiting event is taken up by the engine. */
  lemma LockIsTaken(cfg: Config, w: System, ev: Event, o: Oracle) returns (v: System)
    requires Machine.Inv(cfg, w.sys) && w.sys.lock.None? && w.sys.writer.None?
    requires 0 in w.sys.tasks && w.sys.tasks[0] == Waiting(ev)
    ensures Possible(cfg, w, Engine(Acquire(0, o))) && v == Next(cfg, w, Engine(Acquire(0, o))) && Machine.Inv(cfg, v.sys)
    ensures v.past == w.past && v.watchers == w.watchers && v.sys.base == w.sys.base
    ensures v.sys.log == w.sys.log + [Acquisition(ev, o)]
  {
    var acquire := Acquire(0, o);
    StepKeepsInv(cfg, w.sys, acquire);
    StepKeepsBase(cfg, w.sys, acquire);
    AcquireLogs(cfg, w.sys, 0, o);
    hide Machine.Inv, ApplyAcquire;
    v := Next(cfg, w, Engine(acquire));
  }

  lemma EventTakenUp(cfg: Config, w: System, inits: seq<Initial>, i: nat, key: string, r: int)
    returns (moves: seq<Move>, v: System)
    requires i < |inits| && Matches(inits[i].watch, key) && RoundOf(StartOf(inits[i]), key) < r
    requires BeganAs(w.watchers, inits) && i in w.watchers && w.watchers[i] == ShownRow(inits[i], key, r)
    requires Machine.Inv(cfg, w.sys) && w.sys.tasks == map[] && w.sys.lock.None? && w.sys.writer.None?
    ensures Moved(cfg, w, moves) == Some(v) && Machine.Inv(cfg, v.sys)
    ensures v.past == w.past && BeganAs(v.watchers, inits) && v.sys.base == w.sys.base
    ensures v.sys.log == w.sys.log + [Acquisition(ToEvent(RiseOf(inits[i], key, r), "round"), WillingOracle())]
  {
    var u := RowArrives(cfg, w, inits, i, key, r);
    hide ToEvent, RiseOf, WillingOracle, Machine.Inv, Possible, Next, ShownRow, BeganAs, StartOf, Matches;
    v := LockIsTaken(cfg, u, ToEvent(RiseOf(inits[i], key, r), "round"), WillingOracle());
    var see, take := See(i, 0), Engine(Acquire(0, WillingOracle()));
    MovedOnce(cfg, w, see);
    hide Moved;
    MoveOn(cfg, w, [see], u, take);
    moves := [see] + [take];
  }

  lemma AcquireLogs(cfg: Config, s: Sys, t: nat, o: Oracle)
    requires Enabled(cfg, s, Acquire(t, o))
    ensures ApplyAcquire(cfg, s, t, o).log == s.log + [Acquisition(s.tasks[t].ev, o)]
  {
    hide DecisionOf, Transition, FiredActions, EntriesFor;
  }

  /** Round `r` is alerted in the life, and all that its acquisitions send has been sent. */
  ghost predicate Dispatched(cfg: Config, l: Life, r: int) {
    Int(r) in AlertRounds(cfg, l.base, l.log) && l.effects == Replay(cfg, l.base, l.log).effects
  }

  lemma OneAlertRound(cfg: Config, z: Serial, f: Fired)
    requires IsSendingAlert(cfg) && Watches(z.core, 0) && 0 < f.newRound && ToFloat(f.newRound).Some?
    ensures var log := [Acquisition(ToEvent(f, "round"), WillingOracle())];
            Int(f.newRound) in AlertRounds(cfg, z, log)
  {
    WillingSends(cfg, z.core, z.disk, f, "round");
    ToEventRound(f, "round");
    hide Transition, ToEvent, WillingOracle;
    var log := [Acquisition(ToEvent(f, "round"), WillingOracle())];
    assert log[..0] == [] && Replay(cfg, z, log[..0]) == z;
    assert AlertAt(cfg, z, log, 0);
  }

  /** A new process with any pollers alerts a round that one of them sees rise above its initial snapshot. */
  lemma OneAlert(cfg: Config, w: System, inits: seq<Initial>, i: nat, key: string, r: int) returns (moves: seq<Move>, v: System)
    requires IsSendingAlert(cfg) && IsFresh(cfg, w) && 0 < r && ToFloat(r).Some?
    requires i < |inits| && Matches(inits[i].watch, key) && RoundOf(StartOf(inits[i]), key) < r
    ensures Moved(cfg, w, moves) == Some(v)
    ensures v.past == w.past && Dispatched(cfg, LifeOf(v), r) && Machine.Inv(cfg, v.sys)
    ensures BeganAs(v.watchers, inits)
  {
    RiseRound(inits[i], key, r);
    hide IsSendingAlert, Machine.Inv, Moved, Exec, WillingOracle, ToEvent, RiseOf, Watches, ShownRow, AlertRounds,
      BeganAs, StartOf, Matches, ToFloat;
    var polls, w1 := RowShown(cfg, w, inits, i, key, r);
    var takes, w2 := EventTakenUp(cfg, w1, inits, i, key, r);
    MovedConcat(cfg, w, polls, takes);
    var steps := CanFinish(cfg, w2.sys);
    var rest := EngineAlone(cfg, w2, steps);
    MovedConcat(cfg, w, polls + takes, rest);
    moves, v := polls + takes + rest, w2.(sys := Exec(cfg, w2.sys, steps).value);
    assert [] + [Acquisition(ToEvent(RiseOf(inits[i], key, r), "round"), WillingOracle())]
        == [Acquisition(ToEvent(RiseOf(inits[i], key, r), "round"), WillingOracle())];
    OneAlertRound(cfg, w.sys.base, RiseOf(inits[i], key, r));
  }

  lemma RiseRound(x: Initial, key: string, r: int)
    ensures RiseOf(x, key, r).newRound == r
  {
  }

  // ---------- Two processes ----------

  /** The process was restarted once, both processes alert round `r`, and the pollers of the second one began
      as `inits` says. */
  ghost predicate Repeats(cfg: Config, w: System, inits: seq<Initial>, r: int) {
    |w.past| == 1 && Dispatched(cfg, w.past[0], r) && Dispatched(cfg, LifeOf(w), r) && BeganAs(w.watchers, inits)
  }

  /** One of the pollers watches a peer key that its initial poll left below round `r`, missing keys being at 0. */
  ghost predicate StartsBelow(inits: seq<Initial>, r: int) {
    exists i, key :: 0 <= i < |inits| && Matches(inits[i].watch, key) && RoundOf(StartOf(inits[i]), key) < r
  }

  lemma RestartIsFresh(cfg: Config, w: System, now: int)
    requires Machine.Inv(cfg, w.sys) && IsOwnerAlert(cfg)
    ensures IsFresh(cfg, Next(cfg, w, Restart(now, false)))
    ensures Next(cfg, w, Restart(now, false)).past == w.past + [LifeOf(w)]
  {
    StepKeepsInv(cfg, w.sys, Machine.Crash(now, false));
    CrashForgetsRounds(cfg, w.sys, now, false);
    hide Machine.Inv, IsOwnerAlert, Watches;
  }

  lemma SendingIsOwnerAlert(cfg: Config)
    requires IsSendingAlert(cfg)
    ensures IsOwnerAlert(cfg)
  {
    hide IsAlias, AlertConfig, FirstBadHole, HoleNames, MetadataRenders;
  }

  /** The exact limit of the guarantee, for any pollers and any round: a second process can alert a round again if
      and only if the round is positive, has a double, and one of the pollers watches a key that its initial poll
      left below the round. */
  lemma RepeatIff(cfg: Config, disk: Disk, now: int, inits: seq<Initial>, r: int)
    requires IsSendingAlert(cfg)
    ensures (exists moves :: Moved(cfg, Begin(cfg, disk, now), moves).Some?
               && Repeats(cfg, Moved(cfg, Begin(cfg, disk, now), moves).value, inits, r))
            <==> 0 < r && ToFloat(r).Some? && StartsBelow(inits, r)
  {
    SendingIsOwnerAlert(cfg);
    hide IsSendingAlert, IsOwnerAlert, Moved, Begin, Repeats, StartsBelow, ToFloat;
    forall moves | Moved(cfg, Begin(cfg, disk, now), moves).Some?
                   && Repeats(cfg, Moved(cfg, Begin(cfg, disk, now), moves).value, inits, r)
      ensures 0 < r && ToFloat(r).Some? && StartsBelow(inits, r)
    {
      RepeatNeedsLess(cfg, disk, now, moves, inits, r);
    }
    if 0 < r && ToFloat(r).Some? && StartsBelow(inits, r) {
      var moves := RepeatHappens(cfg, disk, now, inits, r);
    }
  }

  lemma RepeatNeedsLess(cfg: Config, disk: Disk, now: int, moves: seq<Move>, inits: seq<Initial>, r: int)
    requires IsOwnerAlert(cfg) && Moved(cfg, Begin(cfg, disk, now), moves).Some?
    requires Repeats(cfg, Moved(cfg, Begin(cfg, disk, now), moves).value, inits, r)
    ensures 0 < r && ToFloat(r).Some? && StartsBelow(inits, r)
  {
    hide IsOwnerAlert, Moved, Begin, AlertRounds, Shown, Shows, Sends, LateAlerts, Replay, ToFloat, SeenAbove, StartsBelow, BeganAs;
    var w := Moved(cfg, Begin(cfg, disk, now), moves).value;
    var high := PolledRoundsAlertOnce(cfg, disk, now, moves, LifeOf(w));
    SeenStartsBelow(w.watchers, inits, r);
  }

  lemma SeenStartsBelow(watchers: map<nat, Watcher>, inits: seq<Initial>, r: int)
    requires SeenAbove(watchers, r) && BeganAs(watchers, inits)
    ensures StartsBelow(inits, r)
  {
    hide Matches, StartOf, Shown, Shows;
    var p, e, j :|
      && p in watchers && e in watchers[p].fired && e.newRound == r
      && Matches(watchers[p].watch, e.peer) && RoundOf(watchers[p].start, e.peer) < r
      && 0 <= j < |Shown(watchers[p])| && Shows(Shown(watchers[p])[j], e);
    assert Matches(inits[p].watch, e.peer) && RoundOf(StartOf(inits[p]), e.peer) < r;
  }

  lemma RepeatHappens(cfg: Config, disk: Disk, now: int, inits: seq<Initial>, r: int) returns (moves: seq<Move>)
    requires IsSendingAlert(cfg) && 0 < r && ToFloat(r).Some? && StartsBelow(inits, r)
    ensures Moved(cfg, Begin(cfg, disk, now), moves).Some?
    ensures Repeats(cfg, Moved(cfg, Begin(cfg, disk, now), moves).value, inits, r)
  {
    var star := Initial(Watch("*", map[]), []);
    assert Matches(star.watch, "") && RoundOf(StartOf(star), "") == 0;
    SendingIsOwnerAlert(cfg);
    BeginIsFresh(cfg, disk, now);
    hide IsSendingAlert, IsOwnerAlert, Machine.Inv, Dispatched, Moved, IsFresh, Begin, Repeats, ToFloat, StartsBelow, BeganAs, Matches, StartOf;
    var first, w := OneAlert(cfg, Begin(cfg, disk, now), [star], 0, "", r);
    var second := AlertAgain(cfg, w, now, inits, r);
    MovedConcat(cfg, Begin(cfg, disk, now), first, second);
    moves := first + second;
  }

  lemma AlertAgain(cfg: Config, w: System, now: int, inits: seq<Initial>, r: int) returns (moves: seq<Move>)
    requires IsSendingAlert(cfg) && IsOwnerAlert(cfg) && 0 < r && ToFloat(r).Some? && StartsBelow(inits, r)
    requires Machine.Inv(cfg, w.sys) && w.past == [] && Dispatched(cfg, LifeOf(w), r)
    ensures Moved(cfg, w, moves).Some? && Repeats(cfg, Moved(cfg, w, moves).value, inits, r)
  {
    hide IsSendingAlert, IsOwnerAlert, Machine.Inv, Dispatched, Moved, IsFresh, ToFloat, BeganAs, Matches, StartOf;
    var i, key :| 0 <= i < |inits| && Matches(inits[i].watch, key) && RoundOf(StartOf(inits[i]), key) < r;
    RestartIsFresh(cfg, w, now);
    var again := Restart(now, false);
    MovedOnce(cfg, w, again);
    var reborn := Next(cfg, w, again);
    hide Next;
    var rest, end := OneAlert(cfg, reborn, inits, i, key, r);
    MovedConcat(cfg, w, [again], rest);
    moves := [again] + rest;
    assert end.past == [LifeOf(w)];
  }

  lemma BeginIsFresh(cfg: Config, disk: Disk, now: int)
    requires IsOwnerAlert(cfg)
    ensures IsFresh(cfg, Begin(cfg, disk, now)) && Begin(cfg, disk, now).past == []
  {
    InitKeepsInv(cfg, disk, now);
    StartsWatching(cfg, disk, now);
    hide Machine.Inv, IsOwnerAlert, Watches;
  }
}
