/** What a statechart does, as functions: guards, actions, one locked transition, persistence and
    restore of core/statechart.py. The engine class and the interleaved machine are proved against
    these functions. */
module Chart {
  import opened Text
  import opened Parser
  import opened Evaluator
  import opened Template
  import opened Filter

  type Context = map<string, Value>

  // ---------- The plugin ----------

  datatype Metadata =
    | MText(text: string)
    | MItems(items: seq<Metadata>)
    | MFields(fields: map<string, Metadata>)
    | MOther(value: Value)

  datatype Action =
    | Untyped
    | Log(message: string)
    | SetContext(items: seq<(string, Source)>)
    | IncrementContext(key: string, amount: int)
    | ReplyA2A(template: string)
    | SendA2A(peer: string, text: Source, metadata: Option<Metadata>)
    | Custom(name: string)

  /** An entry of an `on` mapping; a string shorthand has no run-time meaning. */
  datatype Entry = Shorthand | Entry(guard: Option<string>, target: Option<string>, actions: seq<Action>)

  datatype Handlers = NoHandlers | One(entry: Entry) | Many(entries: seq<Entry>)

  datatype StateDef = StateDef(on: map<string, Handlers>, actions: seq<Action>)

  datatype Config = Config(
    name: string, version: string, meta: Value,
    states: map<string, StateDef>, initial: string, initialContext: Context,
    persistent: bool, exclude: seq<string>,
    registered: set<string>)   // names of the action handlers in the registry besides the built-in ones

  datatype Event = Event(kind: string, payload: map<string, Value>, messageId: Option<string>, sourcePeer: Option<string>)

  /** A handler is a list of entries, or one entry standing for a list. */
  function EntriesOf(h: Handlers): seq<Entry> {
    match h
    case NoHandlers => []
    case One(entry) => [entry]
    case Many(entries) => entries
  }

  /** The entries tried for an event in a state, in order. */
  function EntriesFor(cfg: Config, state: string, kind: string): seq<Entry> {
    if state !in cfg.states || kind !in cfg.states[state].on then [] else EntriesOf(cfg.states[state].on[kind])
  }

  function EntryActions(cfg: Config, target: string): seq<Action> {
    if target in cfg.states then cfg.states[target].actions else []
  }

  // ---------- The world during one transition ----------

  /** The readings behind one `as_dict()`: two clock readings, the history namespaces, and how their
      objects answer. */
  datatype Snap = Snap(stateClock: int, nowClock: int, peers: Value, history: Value, world: World)

  datatype Status = Done | ActionFailed | Raised

  /** Whether the first call of the injected send raises TypeError: not at all; before it dispatched anything,
      as a send of the older two-argument signature does; or from its inside, after it dispatched. */
  datatype FirstCall = NoTypeError | TypeErrorAtCall | TypeErrorAfterDispatch

  /** How the awaited part of an action ends: the context edits of a registered handler, the first call of a
      send, and the outcome, which after a TypeError is that of the second call. */
  datatype HandlerOutcome = HandlerOutcome(edit: Context -> Context, firstCall: FirstCall, status: Status)

  /** A file that was cut off may end inside a character (`cutsChar`), and is then no UTF-8 text. */
  datatype DiskOutcome = Saved | OpenFailed | WriteFailed(cutsChar: bool) | ReplaceFailed

  /** Everything one transition learns from outside: one snapshot for each guard, one for each
      `as_dict()` of each action, the end of each action, two clock readings, and the disk. */
  datatype Oracle = Oracle(
    guardSnap: nat -> Snap,
    actionSnap: (nat, nat) -> Snap,
    handler: nat -> HandlerOutcome,
    enteredClock: int, updatedClock: int,
    disk: DiskOutcome)

  // ---------- Evaluation environments ----------

  function EventDict(ev: Event): map<string, Value> {
    var merged := ev.payload["type" := Str(ev.kind)];
    var withId := if ev.messageId.Some? then merged["message_id" := Str(ev.messageId.value)] else merged;
    if ev.sourcePeer.Some? then withId["source_peer" := Str(ev.sourcePeer.value)] else withId
  }

  /** What a transition was started with; the context is passed beside it because actions change it. */
  datatype Run = Run(cfg: Config, ev: Event, state: string, enteredAt: int, o: Oracle)

  function EnvOf(run: Run, context: Context, snap: Snap): Env {
    var age := snap.stateClock - run.enteredAt;
    Env(snap.nowClock, map[
      "event" := Dict(EventDict(run.ev)),
      "context" := Dict(context),
      "state" := Dict(map[
        "id" := Str(run.state),
        "duration_ms" := Int(if age < 0 then 0 else age),
        "entered_at_ms" := Int(run.enteredAt)]),
      "meta" := run.cfg.meta,
      "peers" := snap.peers,
      "history" := snap.history])
  }

  // ---------- Guards ----------

  datatype GuardError = SyntaxError | EvaluationError(error: Error)

  datatype GuardOutcome = Passed | WasFalse(guard: string, value: Value) | WentWrong(guard: string, error: GuardError)

  function CheckGuard(run: Run, context: Context, guard: Option<string>, i: nat): GuardOutcome {
    if guard.None? || guard.value == "" then Passed else
    match Parse(guard.value)
    case None => WentWrong(guard.value, SyntaxError)
    case Some(ast) =>
      var snap := run.o.guardSnap(i);
      match Evaluate(ast, EnvOf(run, context, snap), snap.world)
      case Err(error) => WentWrong(guard.value, EvaluationError(error))
      case Ok(v) => if Truthy(v, snap.world) then Passed else WasFalse(guard.value, v)
  }

  /** What the scan of the entries decides. */
  datatype Decision =
    | Unmatched
    | Blocked(outcome: GuardOutcome)
    | Undeclared(target: string)
    | Fire(index: nat, target: string)

  /** An entry with a target that is neither absent nor empty. */
  predicate HasTarget(e: Entry) {
    e.Entry? && e.target.Some? && e.target.value != ""
  }

  /** The scan stops at the first entry whose guard does not pass or that has a target. */
  function Scan(run: Run, context: Context, entries: seq<Entry>, i: nat): Decision
    requires i <= |entries|
    decreases |entries| - i
  {
    if i == |entries| then Unmatched
    else if entries[i].Shorthand? then Scan(run, context, entries, i + 1)
    else
      var outcome := CheckGuard(run, context, entries[i].guard, i);
      if outcome != Passed then Blocked(outcome)
      else if !HasTarget(entries[i]) then Scan(run, context, entries, i + 1)
      else if entries[i].target.value !in run.cfg.states then Undeclared(entries[i].target.value)
      else Fire(i, entries[i].target.value)
  }

  // ---------- Actions ----------

  datatype Effect =
    | Logged(text: string)
    | Replied(messageId: string, text: string)
    | Sent(peer: string, text: string, metadata: Option<Metadata>, legacy: bool)
    | Invoked(name: string)

  /** The context, the effects and the status after (part of) an action. */
  datatype Outcome = Outcome(context: Context, effects: seq<Effect>, status: Status)

  function RenderMetadata(m: Metadata, env: Env, w: World): Option<Metadata>
    decreases m, 0
  {
    match m
    case MText(text) =>
      (match Render(text, env, w)
       case Output(s) => Some(MText(s))
       case RenderFailed(_) => None)
    case MItems(items) =>
      var rendered :- RenderItems(items, env, w);
      Some(MItems(rendered))
    case MFields(fields) =>
      if exists k :: k in fields && RenderMetadata(fields[k], env, w).None? then None
      else Some(MFields(map k | k in fields :: RenderMetadata(fields[k], env, w).value))
    case MOther(_) => Some(m)
  }

  function RenderItems(items: seq<Metadata>, env: Env, w: World): (r: Option<seq<Metadata>>)
    ensures r.Some? ==> |r.value| == |items|
    decreases items, 1
  {
    if items == [] then Some([]) else
    var first :- RenderMetadata(items[0], env, w);
    var rest :- RenderItems(items[1..], env, w);
    Some([first] + rest)
  }

  /** The items of `set_context` from the `j`-th on: each is rendered in the context left by the ones
      before it, and the first that fails stops the rest. */
  function SetItems(run: Run, context: Context, items: seq<(string, Source)>, k: nat, j: nat): Outcome
    requires j <= |items|
    decreases |items| - j
  {
    if j == |items| then Outcome(context, [], Done) else
    var snap := run.o.actionSnap(k, j);
    match RenderSource(items[j].1, EnvOf(run, context, snap), snap.world)
    case RenderFailed(_) => Outcome(context, [], Raised)
    case Output(s) =>
      match Recover(s, snap.world)
      case None => Outcome(context, [], Raised)
      case Some(v) => SetItems(run, context[items[j].0 := v], items, k, j + 1)
  }

  /** `int(v)` as `increment_context` uses it. */
  function IntOf(v: Value, w: World): Option<int> {
    match v
    case Str(s) => w.integer(s)
    case _ => Truncate(v)
  }

  /** The part of the `k`-th action up to its first suspension. */
  function StartAction(run: Run, action: Action, k: nat, context: Context): Outcome {
    var snap := run.o.actionSnap(k, 0);
    var env := EnvOf(run, context, snap);
    match action
    case Untyped => Outcome(context, [], ActionFailed)
    case Log(message) =>
      (match Render(message, env, snap.world)
       case RenderFailed(_) => Outcome(context, [], Raised)
       case Output(s) => Outcome(context, [Logged(s)], Done))
    case SetContext(items) => SetItems(run, context, items, k, 0)
    case IncrementContext(key, amount) =>
      (match IntOf(if key in context then context[key] else Int(0), snap.world)
       case None => Outcome(context, [], Raised)
       case Some(n) => Outcome(context[key := Int(n + amount)], [], Done))
    case ReplyA2A(template) =>
      if run.ev.messageId.None? || run.ev.messageId.value == "" then Outcome(context, [], ActionFailed) else
      (match Render(template, env, snap.world)
       case RenderFailed(_) => Outcome(context, [], Raised)
       case Output(s) => Outcome(context, [Replied(run.ev.messageId.value, s)], Done))
    case SendA2A(peer, text, metadata) => StartSend(run, context, peer, text, metadata, k)
    case Custom(name) =>
      if name in run.cfg.registered then Outcome(context, [Invoked(name)], Done)
      else Outcome(context, [], ActionFailed)
  }

  /** `send_a2a` renders its text and its metadata and calls the injected send; when that raises TypeError at
      the call, it is called again without metadata. */
  function StartSend(run: Run, context: Context, peer: string, text: Source, metadata: Option<Metadata>, k: nat): Outcome {
    var s0, s1 := run.o.actionSnap(k, 0), run.o.actionSnap(k, 1);
    match RenderSource(text, EnvOf(run, context, s0), s0.world)
    case RenderFailed(_) => Outcome(context, [], Raised)
    case Output(s) =>
      var rendered := if metadata.None? then None else RenderMetadata(metadata.value, EnvOf(run, context, s1), s1.world);
      if metadata.Some? && rendered.None? then Outcome(context, [], Raised)
      else
        var again := run.o.handler(k).firstCall == TypeErrorAtCall;
        Outcome(context, [Sent(peer, s, if again then None else rendered, again)], Done)
  }

  /** The awaited rest of a send: after a TypeError from inside the first call, which has dispatched, the text,
      rendered before it, is sent again. */
  function FinishSend(run: Run, context: Context, peer: string, text: Source, k: nat): Outcome {
    var snap, h := run.o.actionSnap(k, 0), run.o.handler(k);
    match RenderSource(text, EnvOf(run, context, snap), snap.world)
    case RenderFailed(_) => Outcome(context, [], h.status)
    case Output(s) =>
      Outcome(context, if h.firstCall == TypeErrorAfterDispatch then [Sent(peer, s, None, true)] else [], h.status)
  }

  /** The awaited rest of an action that started well. */
  function FinishAction(run: Run, action: Action, k: nat, context: Context): Outcome {
    match action
    case ReplyA2A(_) => Outcome(context, [], run.o.handler(k).status)
    case SendA2A(peer, text, _) => FinishSend(run, context, peer, text, k)
    case Custom(_) => Outcome(run.o.handler(k).edit(context), [], run.o.handler(k).status)
    case _ => Outcome(context, [], Done)
  }

  function DoAction(run: Run, action: Action, k: nat, context: Context): Outcome {
    var started := StartAction(run, action, k, context);
    if started.status != Done then started
    else
      var finished := FinishAction(run, action, k, started.context);
      finished.(effects := started.effects + finished.effects)
  }

  /** The actions from the `k`-th on, in order, until one does not end well. */
  function RunActions(run: Run, actions: seq<Action>, k: nat, context: Context): Outcome
    requires k <= |actions|
    decreases |actions| - k
  {
    if k == |actions| then Outcome(context, [], Done) else
    var first := DoAction(run, actions[k], k, context);
    if first.status != Done then first
    else
      var rest := RunActions(run, actions, k + 1, first.context);
      rest.(effects := first.effects + rest.effects)
  }

  /** An outcome with effects that came before it. */
  function After(effects: seq<Effect>, out: Outcome): Outcome {
    out.(effects := effects + out.effects)
  }

  lemma AfterNothing(out: Outcome)
    ensures After([], out) == out
  {
    assert [] + out.effects == out.effects;
  }

  lemma AfterTwice(a: seq<Effect>, b: seq<Effect>, out: Outcome)
    ensures After(a, After(b, out)) == After(a + b, out)
  {
    assert a + (b + out.effects) == (a + b) + out.effects;
  }

  // ---------- One locked transition ----------

  datatype Core = Core(state: string, context: Context, enteredAt: int)

  datatype Details = NoDetails | Guard(outcome: GuardOutcome)

  /** `NoMatch` carries the reason and details of the source; a failed action reports neither.
      `Exception` is any exception that leaves `transition`. */
  datatype TransitionResult =
    | Matched(target: string)
    | NoMatch(reason: Option<string>, details: Details)
    | BadTarget(target: string)
    | Exception

  /** What a state file may hold. `Torn` is a proper prefix of a written document; when it ends inside a
      character it cannot even be decoded. */
  datatype Document = Document(
    schemaVersion: Option<int>, name: Option<string>, version: string,
    context: Option<Context>, stateId: Option<string>, enteredAt: Option<int>, updatedAt: int)

  datatype File = Absent | Torn(cutsChar: bool) | Whole(doc: Document)

  /** The state file, the file it is written to first, and the backup of a corrupt state file. */
  datatype Disk = Disk(target: File, tmp: File, corrupt: File)

  function DocumentOf(cfg: Config, core: Core, updatedAt: int): Document {
    Document(Some(1), Some(cfg.name), cfg.version, Some(Kept(core.context, cfg.exclude)),
             Some(core.state), Some(core.enteredAt), updatedAt)
  }

  /** `persist`: write beside the target, then rename over it. */
  function PersistTo(cfg: Config, core: Core, disk: Disk, o: Oracle): Disk {
    if cfg.persistent then Written(DocumentOf(cfg, core, o.updatedClock), o.disk, disk) else disk
  }

  function Written(doc: Document, outcome: DiskOutcome, disk: Disk): Disk {
    match outcome
    case Saved => disk.(target := Whole(doc), tmp := Absent)
    case OpenFailed => disk
    case WriteFailed(cutsChar) => disk.(tmp := Torn(cutsChar))
    case ReplaceFailed => disk.(tmp := Whole(doc))
  }

  datatype Transitioned = Transitioned(core: Core, disk: Disk, effects: seq<Effect>, result: TransitionResult)

  function ReasonOf(outcome: GuardOutcome): string {
    match outcome
    case Passed => ""
    case WasFalse(_, _) => "guard_false"
    case WentWrong(_, EvaluationError(Diagnostic(reason))) => reason
    case WentWrong(_, _) => "guard_eval_error"
  }

  function RunOf(cfg: Config, core: Core, ev: Event, o: Oracle): Run {
    Run(cfg, ev, core.state, core.enteredAt, o)
  }

  function DecisionOf(cfg: Config, core: Core, ev: Event, o: Oracle): Decision {
    Scan(RunOf(cfg, core, ev, o), core.context, EntriesFor(cfg, core.state, ev.kind), 0)
  }

  /** The actions of a firing: those of the entry, then the entry actions of the target. */
  function FiredActions(cfg: Config, entries: seq<Entry>, index: nat, target: string): seq<Action>
    requires index < |entries| && entries[index].Entry?
  {
    entries[index].actions + EntryActions(cfg, target)
  }

  /** The end of a firing whose actions are over: a switch of state and a persist, or neither. */
  function Conclude(cfg: Config, core: Core, disk: Disk, target: string, o: Oracle, done: Outcome): Transitioned {
    match done.status
    case Done =>
      var after := Core(target, done.context, o.enteredClock);
      Transitioned(after, PersistTo(cfg, after, disk, o), done.effects, Matched(target))
    case ActionFailed => Transitioned(core.(context := done.context), disk, done.effects, NoMatch(None, NoDetails))
    case Raised => Transitioned(core.(context := done.context), disk, done.effects, Exception)
  }

  lemma {:induction false} ScanFires(run: Run, context: Context, entries: seq<Entry>, i: nat)
    requires i <= |entries|
    ensures Scan(run, context, entries, i).Fire? ==>
              var Fire(index, target) := Scan(run, context, entries, i);
              i <= index < |entries| && HasTarget(entries[index]) && entries[index].target.value == target
              && target in run.cfg.states
    decreases |entries| - i
  {
    if i < |entries| {
      ScanFires(run, context, entries, i + 1);
    }
  }

  function Transition(cfg: Config, core: Core, disk: Disk, ev: Event, o: Oracle): Transitioned {
    var run, entries := RunOf(cfg, core, ev, o), EntriesFor(cfg, core.state, ev.kind);
    match DecisionOf(cfg, core, ev, o)
    case Unmatched => Transitioned(core, disk, [], NoMatch(None, NoDetails))
    case Blocked(outcome) => Transitioned(core, disk, [], NoMatch(Some(ReasonOf(outcome)), Guard(outcome)))
    case Undeclared(target) => Transitioned(core, disk, [], BadTarget(target))
    case Fire(index, target) =>
      ScanFires(run, core.context, entries, 0);
      Conclude(cfg, core, disk, target, o, RunActions(run, FiredActions(cfg, entries, index, target), 0, core.context))
  }

  // ---------- Restore ----------

  datatype RestoreResult = Restored | Skipped | Refused

  /** A state file that cannot be used: moved aside when corruption is to be ignored, else an error. */
  function RejectFile(core: Core, disk: Disk, ignoreCorrupt: bool, backupWorks: bool): (Core, Disk, RestoreResult) {
    if !ignoreCorrupt then (core, disk, Refused)
    else if !backupWorks then (core, disk, Skipped)
    else (core, disk.(target := Absent, corrupt := disk.target), Skipped)
  }

  /** `restore_from_persist`; the new context is in place before a missing state id is noticed. */
  function Restore(cfg: Config, core: Core, disk: Disk, ignoreCorrupt: bool, backupWorks: bool, now: int)
    : (Core, Disk, RestoreResult)
  {
    if !cfg.persistent || disk.target == Absent then (core, disk, Skipped) else
    match disk.target
    case Torn(cutsChar) =>
      // The decoding error is not the JSON error that `ignore_corrupt` covers.
      if cutsChar then (core, disk, Refused) else RejectFile(core, disk, ignoreCorrupt, backupWorks)
    case Whole(doc) =>
      if doc.schemaVersion != Some(1) || doc.name != Some(cfg.name) then RejectFile(core, disk, ignoreCorrupt, backupWorks)
      else
        var context := if doc.context.Some? then doc.context.value else map[];
        match doc.stateId
        case None => (core.(context := context), disk, Refused)
        case Some(id) =>
          (Core(id, context, if doc.enteredAt.Some? then doc.enteredAt.value else now), disk, Restored)
  }
}
