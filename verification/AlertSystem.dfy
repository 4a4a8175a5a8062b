/** The whole owner-alert system: pollers that watch peers, the concurrent engine that runs the chart, and
    restarts of the process. */
module AlertSystem {
  import opened Text
  import opened PyFloat
  import opened Evaluator
  import opened Chart
  import opened ChartFacts
  import opened Machine
  import opened OwnerAlert
  import opened Poller

  // ---------- States ----------

  /** A polling loop: its snapshot and the events it fired, the rows of the current poll it has not dealt with,
      and the task whose transition it awaits. `start` is its snapshot after the initial poll, `seen` the rows
      dealt with since. */
  datatype Watcher = Watcher(
    watch: Watch, granularity: string,
    snapshot: map<string, int>, fired: seq<Fired>, rest: seq<PeerRow>, pending: Option<nat>,
    start: map<string, int>, seen: seq<PeerRow>)

  /** What one process did: its engine at the start, the lock acquisitions, all effects up to its end, and its
      pollers. */
  datatype Life = Life(base: Serial, log: seq<Acquisition>, effects: seq<Effect>, watchers: map<nat, Watcher>)

  datatype System = System(sys: Sys, watchers: map<nat, Watcher>, past: seq<Life>)

  function LifeOf(w: System): Life {
    Life(w.sys.base, w.sys.log, w.sys.effects, w.watchers)
  }

  function Begin(cfg: Config, disk: Disk, now: int): System {
    System(Init(cfg, disk, now), map[], [])
  }

  // ---------- Moves ----------

  datatype Move =
    | Setup(p: nat, watch: Watch, granularity: string, initial: Poll)
    | Polled(p: nat, poll: Poll)
    | See(p: nat, t: nat)
    | Return(p: nat)
    | Other(t: nat, ev: Event)
    | Engine(step: Machine.Step)
    | Restart(now: int, cutsChar: bool)

  /** The event that the next row fires, if it does. */
  function Fires(x: Watcher): Option<Fired>
    requires x.rest != []
  {
    var t := SeeRow(x.watch, Tracker(x.snapshot, []), x.rest[0]);
    if t.fired == [] then None else Some(t.fired[0])
  }

  predicate Arrives(cfg: Config, s: Sys, t: nat, ev: Event) {
    Machine.Enabled(cfg, s, Arrive(t, ev))
  }

  predicate Possible(cfg: Config, w: System, m: Move) {
    match m
    case Setup(p, _, _, _) => p !in w.watchers
    case Polled(p, _) => p in w.watchers && w.watchers[p].rest == [] && w.watchers[p].pending.None?
    case See(p, t) =>
      p in w.watchers && w.watchers[p].rest != [] && w.watchers[p].pending.None? &&
      var x := w.watchers[p];
      Fires(x).Some? ==> Arrives(cfg, w.sys, t, ToEvent(Fires(x).value, x.granularity))
    case Return(p) =>
      p in w.watchers && w.watchers[p].rest != [] && w.watchers[p].pending.Some? &&
      var t := w.watchers[p].pending.value;
      t in w.sys.tasks && w.sys.tasks[t].Finished?
    case Other(t, ev) => ev.kind != "history_change" && Arrives(cfg, w.sys, t, ev)
    case Engine(step) => !step.Arrive? && !step.Crash? && !step.Reload? && Machine.Enabled(cfg, w.sys, step)
    case Restart(_, _) => true
  }

  /** A row is dealt with: at once when it fires nothing, else when its transition has returned, however it
      ended; only then is the snapshot moved. */
  function Consume(x: Watcher): Watcher
    requires x.rest != []
  {
    var row := x.rest[0];
    x.(snapshot := if x.pending.Some? then x.snapshot[KeyOf(row) := row.lastRound] else x.snapshot,
       rest := x.rest[1..], seen := x.seen + [row], pending := None)
  }

  function Next(cfg: Config, w: System, m: Move): System
    requires Possible(cfg, w, m)
  {
    match m
    case Setup(p, watch, granularity, initial) =>
      var start := if initial.Rows? then TakeRows(watch, map[], initial.rows) else map[];
      w.(watchers := w.watchers[p := Watcher(watch, granularity, start, [], [], None, start, [])])
    case Polled(p, poll) =>
      w.(watchers := w.watchers[p := w.watchers[p].(rest := if poll.Rows? then poll.rows else [])])
    case See(p, t) =>
      var x := w.watchers[p];
      (match Fires(x)
       case None => w.(watchers := w.watchers[p := Consume(x)])
       case Some(f) =>
         System(Machine.Apply(cfg, w.sys, Arrive(t, ToEvent(f, x.granularity))),
                w.watchers[p := x.(fired := x.fired + [f], pending := Some(t))], w.past))
    case Return(p) => w.(watchers := w.watchers[p := Consume(w.watchers[p])])
    case Other(t, ev) => w.(sys := Machine.Apply(cfg, w.sys, Arrive(t, ev)))
    case Engine(step) => w.(sys := Machine.Apply(cfg, w.sys, step))
    case Restart(now, cutsChar) =>
      System(Machine.Apply(cfg, w.sys, Machine.Crash(now, cutsChar)), map[], w.past + [LifeOf(w)])
  }

  function Moved(cfg: Config, w: System, moves: seq<Move>): Option<System>
    decreases |moves|
  {
    if moves == [] then Some(w)
    else if !Possible(cfg, w, moves[0]) then None
    else Moved(cfg, Next(cfg, w, moves[0]), moves[1..])
  }

  // ---------- Invariants ----------

  /** The rows whose events have been fired: those dealt with and the one awaited. */
  function Shown(x: Watcher): seq<PeerRow> {
    if x.pending.Some? && x.rest != [] then x.seen + [x.rest[0]] else x.seen
  }

  /** A polling loop in progress has done exactly what the sequential loop does with the same rows. */
  predicate WatcherOk(x: Watcher) {
    && (x.pending.Some? ==> x.rest != [] && Fires(x).Some?)
    && x.snapshot == SeeRows(x.watch, Tracker(x.start, []), x.seen).snapshot
    && x.fired == SeeRows(x.watch, Tracker(x.start, []), Shown(x)).fired
  }

  ghost predicate FiredBy(watchers: map<nat, Watcher>, ev: Event) {
    exists p, i :: p in watchers && 0 <= i < |watchers[p].fired| && ev == ToEvent(watchers[p].fired[i], watchers[p].granularity)
  }

  /** Every history change was fired by one of the pollers. */
  ghost predicate Sourced(watchers: map<nat, Watcher>, ev: Event) {
    ev.kind == "history_change" ==> FiredBy(watchers, ev)
  }

  ghost predicate WatchersOk(watchers: map<nat, Watcher>) {
    forall p :: p in watchers ==> WatcherOk(watchers[p])
  }

  ghost predicate GoodLife(cfg: Config, l: Life) {
    && Watches(l.base.core, 0)
    && (forall i :: 0 <= i < |l.log| ==> Sourced(l.watchers, l.log[i].ev))
    && WatchersOk(l.watchers)
    && Sends(l.effects) <= Sends(Replay(cfg, l.base, l.log).effects)
  }

  ghost predicate AllSourced(w: System) {
    forall ev :: Carries(w.sys, ev) ==> Sourced(w.watchers, ev)
  }

  ghost predicate Good(cfg: Config, w: System) {
    && Machine.Inv(cfg, w.sys) && Watches(w.sys.base.core, 0)
    && AllSourced(w) && WatchersOk(w.watchers)
    && forall i :: 0 <= i < |w.past| ==> GoodLife(cfg, w.past[i])
  }

  /** The present life is as good as the past ones. */
  lemma PresentIsGood(cfg: Config, w: System)
    requires Good(cfg, w)
    ensures GoodLife(cfg, LifeOf(w))
  {
    hide WatchersOk, Sourced, Sends, Replay, Linear, FileInvariant;
    forall i | 0 <= i < |w.sys.log| ensures Sourced(w.watchers, w.sys.log[i].ev) {
      assert Carries(w.sys, w.sys.log[i].ev);
    }
    SendsSoFar(cfg, w.sys);
  }

  /** Pollers only fire more. */
  ghost predicate Grown(before: map<nat, Watcher>, after: map<nat, Watcher>) {
    forall p :: p in before ==>
      p in after && before[p].fired <= after[p].fired && before[p].granularity == after[p].granularity
  }

  lemma SourcedGrows(before: map<nat, Watcher>, after: map<nat, Watcher>, ev: Event)
    requires Grown(before, after) && Sourced(before, ev)
    ensures Sourced(after, ev)
  {
    hide ToEvent;
    if ev.kind == "history_change" {
      var p, i :| p in before && 0 <= i < |before[p].fired| && ev == ToEvent(before[p].fired[i], before[p].granularity);
      assert after[p].fired[i] == before[p].fired[i];
    }
  }

  lemma AllSourcedGrows(s: Sys, before: map<nat, Watcher>, after: map<nat, Watcher>)
    requires Grown(before, after) && forall ev :: Carries(s, ev) ==> Sourced(before, ev)
    ensures forall ev :: Carries(s, ev) ==> Sourced(after, ev)
  {
    hide Grown, Sourced, Carries;
    forall ev | Carries(s, ev) ensures Sourced(after, ev) { SourcedGrows(before, after, ev); }
  }

  // ---------- Pollers keep to the sequential loop ----------

  lemma SeeOneMore(w: Watch, t: Tracker, rows: seq<PeerRow>, row: PeerRow)
    ensures SeeRows(w, t, rows + [row]) == SeeRow(w, SeeRows(w, t, rows), row)
  {
    SeeRowsNext(w, t, rows + [row], |rows|);
    assert (rows + [row])[..|rows|] == rows && (rows + [row])[..|rows| + 1] == rows + [row];
  }

  /** What a row does to the snapshot and the events does not depend on the events before it. */
  lemma FiresIs(x: Watcher, t: Tracker)
    requires x.rest != [] && t.snapshot == x.snapshot
    ensures SeeRow(x.watch, t, x.rest[0]) ==
              match Fires(x)
              case None => t
              case Some(f) => Tracker(x.snapshot[KeyOf(x.rest[0]) := x.rest[0].lastRound], t.fired + [f])
  {
    hide Matches, KeyOf;
  }

  lemma ConsumeKeeps(x: Watcher)
    requires WatcherOk(x) && x.rest != [] && (x.pending.None? ==> Fires(x).None?)
    ensures WatcherOk(Consume(x)) && Consume(x).fired == x.fired
  {
    var t := SeeRows(x.watch, Tracker(x.start, []), x.seen);
    SeeOneMore(x.watch, Tracker(x.start, []), x.seen, x.rest[0]);
    FiresIs(x, t);
    hide SeeRow, SeeRows, Fires, KeyOf;
  }

  lemma FireKeeps(x: Watcher, t: nat)
    requires WatcherOk(x) && x.rest != [] && x.pending.None? && Fires(x).Some?
    ensures WatcherOk(x.(fired := x.fired + [Fires(x).value], pending := Some(t)))
  {
    var y := x.(fired := x.fired + [Fires(x).value], pending := Some(t));
    assert Fires(y) == Fires(x);
    SeeOneMore(x.watch, Tracker(x.start, []), x.seen, x.rest[0]);
    FiresIs(x, SeeRows(x.watch, Tracker(x.start, []), x.seen));
    hide SeeRow, SeeRows, Fires, KeyOf;
  }

  /** What a move makes of a poller. */
  ghost predicate GoesOn(x: Watcher, y: Watcher) {
    WatcherOk(y) && x.fired <= y.fired && x.granularity == y.granularity
  }

  lemma ReplaceWatcher(watchers: map<nat, Watcher>, p: nat, y: Watcher)
    requires WatchersOk(watchers) && WatcherOk(y) && (p in watchers ==> GoesOn(watchers[p], y))
    ensures WatchersOk(watchers[p := y]) && Grown(watchers, watchers[p := y])
  {
    hide WatcherOk;
  }

  lemma SetupIsOk(watch: Watch, granularity: string, start: map<string, int>)
    ensures WatcherOk(Watcher(watch, granularity, start, [], [], None, start, []))
  {
  }

  lemma PolledGoesOn(x: Watcher, rows: seq<PeerRow>)
    requires WatcherOk(x) && x.rest == [] && x.pending.None?
    ensures GoesOn(x, x.(rest := rows))
  {
  }

  lemma ConsumeGoesOn(x: Watcher)
    requires WatcherOk(x) && x.rest != [] && (x.pending.None? ==> Fires(x).None?)
    ensures GoesOn(x, Consume(x))
  {
    ConsumeKeeps(x);
    ConsumeKeepsName(x);
    hide WatcherOk, Consume, Fires;
  }

  /** The pollers after a move of theirs. */
  lemma WatcherMove(cfg: Config, w: System, m: Move)
    requires WatchersOk(w.watchers) && Possible(cfg, w, m) && (m.Setup? || m.Polled? || m.See? || m.Return?)
    ensures WatchersOk(Next(cfg, w, m).watchers) && Grown(w.watchers, Next(cfg, w, m).watchers)
  {
    hide Apply, Arrives, ToEvent, TakeRows, WatcherOk, Fires, Consume, Grown;
    var after := Next(cfg, w, m).watchers;
    match m
    case Setup(p, watch, granularity, _) =>
      SetupIsOk(watch, granularity, after[p].start);
      ReplaceWatcher(w.watchers, p, after[p]);
    case Polled(p, _) =>
      PolledGoesOn(w.watchers[p], after[p].rest);
      ReplaceWatcher(w.watchers, p, after[p]);
    case See(p, t) =>
      var x := w.watchers[p];
      if Fires(x).Some? {
        FireKeeps(x, t);
        assert x.fired <= x.fired + [Fires(x).value];
      } else {
        ConsumeGoesOn(x);
      }
      ReplaceWatcher(w.watchers, p, after[p]);
    case Return(p) =>
      ConsumeGoesOn(w.watchers[p]);
      ReplaceWatcher(w.watchers, p, after[p]);
  }

  lemma ConsumeKeepsName(x: Watcher)
    requires x.rest != []
    ensures Consume(x).granularity == x.granularity
  {
  }

  // ---------- Every move keeps the system good ----------

  /** What a move does to the engine. */
  lemma EngineMove(cfg: Config, s: Sys, step: Machine.Step, watchers: map<nat, Watcher>)
    requires Machine.Inv(cfg, s) && Machine.Enabled(cfg, s, step) && !step.Crash? && !step.Reload?
    requires forall ev :: Carries(s, ev) ==> Sourced(watchers, ev)
    requires step.Arrive? ==> Sourced(watchers, step.ev)
    ensures var s' := Machine.Apply(cfg, s, step);
            Machine.Inv(cfg, s') && s'.base == s.base && forall ev :: Carries(s', ev) ==> Sourced(watchers, ev)
  {
    hide Machine.Inv, Apply, Enabled, Carries, Sourced;
    StepKeepsInv(cfg, s, step);
    StepKeepsBase(cfg, s, step);
    forall ev | Carries(Machine.Apply(cfg, s, step), ev) ensures Sourced(watchers, ev) {
      StepCarries(cfg, s, step, ev);
    }
  }

  lemma MoveKeeps(cfg: Config, w: System, m: Move)
    requires IsOwnerAlert(cfg) && Good(cfg, w) && Possible(cfg, w, m)
    ensures Good(cfg, Next(cfg, w, m))
  {
    if m.Restart? {
      RestartKeeps(cfg, w, m.now, m.cutsChar);
    } else if m.Engine? || m.Other? {
      EngineMoveKeeps(cfg, w, m);
    } else {
      PollerMoveKeeps(cfg, w, m);
    }
    hide Good, Possible, Next, IsOwnerAlert;
  }

  lemma EngineMoveKeeps(cfg: Config, w: System, m: Move)
    requires Good(cfg, w) && Possible(cfg, w, m) && (m.Engine? || m.Other?)
    ensures Good(cfg, Next(cfg, w, m))
  {
    EngineMove(cfg, w.sys, if m.Engine? then m.step else Arrive(m.t, m.ev), w.watchers);
    hide Machine.Inv, Apply, Enabled, Carries, FiredBy, WatchersOk, GoodLife, Watches;
  }

  lemma PollerMoveKeeps(cfg: Config, w: System, m: Move)
    requires Good(cfg, w) && Possible(cfg, w, m) && (m.Setup? || m.Polled? || m.See? || m.Return?)
    ensures Good(cfg, Next(cfg, w, m))
  {
    WatcherMove(cfg, w, m);
    AllSourcedGrows(w.sys, w.watchers, Next(cfg, w, m).watchers);
    if m.See? && Fires(w.watchers[m.p]).Some? {
      FireIsSourced(cfg, w, m);
    } else {
      QuietMove(cfg, w, m);
    }
    hide Possible, Next, Machine.Inv, WatchersOk, GoodLife, Watches, Grown, Fires, Carries, Sourced;
  }

  lemma QuietMove(cfg: Config, w: System, m: Move)
    requires Possible(cfg, w, m) && (m.Setup? || m.Polled? || m.Return? || (m.See? && Fires(w.watchers[m.p]).None?))
    ensures Next(cfg, w, m).sys == w.sys && Next(cfg, w, m).past == w.past
  {
    hide Fires, Consume, Apply, Arrives;
  }

  lemma FireIsSourced(cfg: Config, w: System, m: Move)
    requires Machine.Inv(cfg, w.sys) && Possible(cfg, w, m) && m.See? && Fires(w.watchers[m.p]).Some?
    requires forall ev :: Carries(w.sys, ev) ==> Sourced(Next(cfg, w, m).watchers, ev)
    ensures var w' := Next(cfg, w, m);
            Machine.Inv(cfg, w'.sys) && w'.sys.base == w.sys.base && AllSourced(w') && w'.past == w.past
  {
    var x, after := w.watchers[m.p], Next(cfg, w, m).watchers;
    var f := Fires(x).value;
    assert Arrives(cfg, w.sys, m.t, ToEvent(f, x.granularity));
    hide Fires, ToEvent;
    assert after[m.p].fired[|x.fired|] == f;
    assert FiredBy(after, ToEvent(f, x.granularity));
    EngineMove(cfg, w.sys, Arrive(m.t, ToEvent(f, x.granularity)), after);
    hide Machine.Inv, Apply, Carries, Sourced;
  }

  lemma RestartKeeps(cfg: Config, w: System, now: int, cutsChar: bool)
    requires IsOwnerAlert(cfg) && Good(cfg, w)
    ensures Good(cfg, Next(cfg, w, Restart(now, cutsChar)))
  {
    PresentIsGood(cfg, w);
    PastStaysGood(cfg, w.past, LifeOf(w));
    CrashIsGood(cfg, w.sys, now, cutsChar);
    hide IsOwnerAlert, Apply, Machine.Inv, AllSourced, WatchersOk, Watches, GoodLife;
  }

  lemma CrashIsGood(cfg: Config, s: Sys, now: int, cutsChar: bool)
    requires IsOwnerAlert(cfg) && Machine.Inv(cfg, s)
    ensures var s' := Machine.Apply(cfg, s, Machine.Crash(now, cutsChar));
            && Machine.Inv(cfg, s') && Watches(s'.base.core, 0) && WatchersOk(map[])
            && forall past :: AllSourced(System(s', map[], past))
  {
    StepKeepsInv(cfg, s, Machine.Crash(now, cutsChar));
    CrashForgetsRounds(cfg, s, now, cutsChar);
    CrashCarriesNothing(cfg, s, now, cutsChar);
    hide Machine.Inv, IsOwnerAlert, Apply, Carries, Sourced, Watches;
  }

  lemma PastStaysGood(cfg: Config, past: seq<Life>, l: Life)
    requires GoodLife(cfg, l) && forall i :: 0 <= i < |past| ==> GoodLife(cfg, past[i])
    ensures forall i :: 0 <= i < |past + [l]| ==> GoodLife(cfg, (past + [l])[i])
  {
    hide GoodLife;
  }

  lemma CrashCarriesNothing(cfg: Config, s: Sys, now: int, cutsChar: bool)
    ensures var s' := Machine.Apply(cfg, s, Machine.Crash(now, cutsChar));
            s'.base.core == s'.core && forall ev :: !Carries(s', ev)
  {
    hide Fresh;
  }

  lemma {:induction false} MovesKeep(cfg: Config, w: System, moves: seq<Move>)
    requires IsOwnerAlert(cfg) && Good(cfg, w) && Moved(cfg, w, moves).Some?
    ensures Good(cfg, Moved(cfg, w, moves).value)
    decreases |moves|
  {
    hide Good, IsOwnerAlert, Possible, Next;
    if moves != [] {
      MoveKeeps(cfg, w, moves[0]);
      MovesKeep(cfg, Next(cfg, w, moves[0]), moves[1..]);
    }
  }

  lemma BeginIsGood(cfg: Config, disk: Disk, now: int)
    requires IsOwnerAlert(cfg)
    ensures Good(cfg, Begin(cfg, disk, now))
  {
    InitKeepsInv(cfg, disk, now);
    StartsWatching(cfg, disk, now);
    hide Machine.Inv, IsOwnerAlert, Watches;
  }

  lemma ReachableIsGood(cfg: Config, disk: Disk, now: int, moves: seq<Move>)
    requires IsOwnerAlert(cfg) && Moved(cfg, Begin(cfg, disk, now), moves).Some?
    ensures Good(cfg, Moved(cfg, Begin(cfg, disk, now), moves).value)
  {
    hide Good, Begin, Moved, IsOwnerAlert;
    BeginIsGood(cfg, disk, now);
    MovesKeep(cfg, Begin(cfg, disk, now), moves);
  }

  // ---------- What every process does ----------

  /** The process now running, or one before it. */
  ghost predicate IsLife(w: System, l: Life) {
    l == LifeOf(w) || exists i :: 0 <= i < |w.past| && w.past[i] == l
  }

  /** One of the pollers fired an event for round `r` of a peer it watches: a row it got after its initial poll
      showed that round, and the peer's round in its initial snapshot lay below. */
  ghost predicate SeenAbove(watchers: map<nat, Watcher>, r: int) {
    exists p, e, j ::
      && p in watchers && e in watchers[p].fired && e.newRound == r
      && Matches(watchers[p].watch, e.peer) && RoundOf(watchers[p].start, e.peer) < r
      && 0 <= j < |Shown(watchers[p])| && Shows(Shown(watchers[p])[j], e)
  }

  lemma FiredIsSeenAbove(watchers: map<nat, Watcher>, p: nat, e: Fired)
    requires p in watchers && WatcherOk(watchers[p]) && e in watchers[p].fired
    ensures SeenAbove(watchers, e.newRound)
  {
    var x := watchers[p];
    FiredRises(x.watch, x.start, Shown(x), e);
    hide Matches, SeeRows, Shows, Shown;
    var j :| 0 <= j < |Shown(x)| && Shows(Shown(x)[j], e);
  }

  lemma SourcedRound(watchers: map<nat, Watcher>, ev: Event)
    requires WatchersOk(watchers) && Sourced(watchers, ev)
    ensures IntegerRound(ev)
    ensures ev.kind == "history_change" ==> SeenAbove(watchers, ev.payload["new_round"].n)
  {
    if ev.kind == "history_change" {
      var p, i :| p in watchers && 0 <= i < |watchers[p].fired| && ev == ToEvent(watchers[p].fired[i], watchers[p].granularity);
      assert ev.payload["new_round"] == Int(watchers[p].fired[i].newRound);
      hide SeenAbove;
      FiredIsSeenAbove(watchers, p, watchers[p].fired[i]);
    }
  }

  /** What a life amounts to: the alerted rounds strictly increase from above zero, one message is dispatched at
      most for each and a second one for each late TypeError, and every alerted round has a double and was seen
      by one of the life's pollers, above its initial snapshot. */
  lemma LifeFacts(cfg: Config, l: Life) returns (high: int)
    requires IsOwnerAlert(cfg) && GoodLife(cfg, l)
    ensures var rounds := AlertRounds(cfg, l.base, l.log);
            && Increasing(rounds, 0, high)
            && Sends(l.effects) <= Sends(l.base.effects) + |rounds| + LateAlerts(cfg, l.base, l.log)
            && forall r :: Int(r) in rounds ==> ToFloat(r).Some? && SeenAbove(l.watchers, r)
  {
    hide WatchersOk, Sourced, SeenAbove, IsOwnerAlert, Watches, AlertRounds, LateAlerts, Sends, Replay, IntegerRound, AlertAt, ToFloat;
    forall i | 0 <= i < |l.log| ensures IntegerRound(l.log[i].ev) { SourcedRound(l.watchers, l.log[i].ev); }
    high := AlertsIncrease(cfg, l.base, l.log, 0);
    forall r | Int(r) in AlertRounds(cfg, l.base, l.log) ensures ToFloat(r).Some? && SeenAbove(l.watchers, r) {
      var i := AlertOrigin(cfg, l.base, l.log, Int(r));
      AlertAtBound(cfg, l.base, l.log, i);
      AlertsAreHistoryChanges(cfg, l.base, l.log, i, 0);
      SourcedRound(l.watchers, l.log[i].ev);
    }
  }

  /** Only a history change alerts, and only one whose round has a double. */
  lemma AlertsAreHistoryChanges(cfg: Config, z: Serial, log: seq<Acquisition>, i: nat, low: int)
    requires IsOwnerAlert(cfg) && Watches(z.core, low) && IntegerRounds(log) && AlertAt(cfg, z, log, i)
    ensures var ev := log[i].ev;
            ev.kind == "history_change" && RoundOfEvent(ev).Int? && ToFloat(RoundOfEvent(ev).n).Some?
  {
    hide IsOwnerAlert, Transition, Replay, IntegerRound, ToFloat;
    assert IntegerRounds(log[..i]);
    var last := AlertsIncrease(cfg, z, log[..i], low);
    var before := Replay(cfg, z, log[..i]);
    var after := AlertStep(cfg, before.core, before.disk, log[i].ev, log[i].o, last);
  }

  /** In the process now running, whenever the lock is free, exactly so many messages have been dispatched. */
  lemma PresentCounts(cfg: Config, w: System)
    requires IsOwnerAlert(cfg) && Good(cfg, w) && w.sys.lock.None?
    ensures Sends(w.sys.effects) ==
              Sends(w.sys.base.effects) + |AlertRounds(cfg, w.sys.base, w.sys.log)| + LateAlerts(cfg, w.sys.base, w.sys.log)
  {
    PresentIsGood(cfg, w);
    hide WatchersOk, Sourced, IsOwnerAlert, Watches, AlertRounds, LateAlerts, Sends, Replay, IntegerRound, FileInvariant;
    forall i | 0 <= i < |w.sys.log| ensures IntegerRound(w.sys.log[i].ev) { SourcedRound(w.watchers, w.sys.log[i].ev); }
    var high := AlertsIncrease(cfg, w.sys.base, w.sys.log, 0);
    assert w.sys.effects == Replay(cfg, w.sys.base, w.sys.log).effects;
  }

  /** Pollers, chart, engine and restarts together: in every run and every process of it, no round is alerted
      twice, and a round is alerted only if a poller of that process saw it rise above its initial snapshot. */
  lemma PolledRoundsAlertOnce(cfg: Config, disk: Disk, now: int, moves: seq<Move>, l: Life) returns (high: int)
    requires IsOwnerAlert(cfg) && Moved(cfg, Begin(cfg, disk, now), moves).Some?
    requires IsLife(Moved(cfg, Begin(cfg, disk, now), moves).value, l)
    ensures var w, rounds := Moved(cfg, Begin(cfg, disk, now), moves).value, AlertRounds(cfg, l.base, l.log);
            var most := Sends(l.base.effects) + |rounds| + LateAlerts(cfg, l.base, l.log);
            && Increasing(rounds, 0, high)
            && Sends(l.effects) <= most
            && (l == LifeOf(w) && w.sys.lock.None? ==> Sends(l.effects) == most)
            && forall r :: Int(r) in rounds ==> ToFloat(r).Some? && SeenAbove(l.watchers, r)
  {
    hide Begin, Moved, IsOwnerAlert, GoodLife, AlertRounds, LateAlerts, SeenAbove, Sends, ToFloat;
    ReachableIsGood(cfg, disk, now, moves);
    var w := Moved(cfg, Begin(cfg, disk, now), moves).value;
    PresentIsGood(cfg, w);
    high := LifeFacts(cfg, l);
    if l == LifeOf(w) && w.sys.lock.None? {
      PresentCounts(cfg, w);
    }
  }
}
