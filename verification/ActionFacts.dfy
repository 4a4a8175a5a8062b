/** What the environment of an evaluation holds and what each action does, stated without the functions that
    define them. */
module ActionFacts {
  import opened Text
  import opened Parser
  import opened Evaluator
  import opened Template
  import opened Filter
  import opened Chart
  import opened ChartFacts

  // ---------- The environment ----------

  lemma OneKey(env: Env, ns: string, entries: map<string, Value>, key: string, w: World)
    requires ns in ALLOWED && ns != "now" && Lookup(env, ns) == Dict(entries)
    ensures ResolvePath(env, [ns, key], w) == Ok(if key in entries then entries[key] else Null)
  {
    var keys := [ns, key][1..];
    assert keys == [key] && keys[1..] == [];
    var next := if key in entries then entries[key] else Null;
    assert Walk(next, [], w) == next;
  }

  lemma WholeSpace(env: Env, ns: string, w: World)
    requires ns in ALLOWED && ns != "now"
    ensures ResolvePath(env, [ns], w) == Ok(Lookup(env, ns))
  {
    assert [ns][1..] == [];
  }

  /** `state` tells the state, when it was entered, and for how long it has lasted, never negative. */
  lemma StatePaths(run: Run, context: Context, snap: Snap) returns (lasted: nat)
    ensures var env := EnvOf(run, context, snap);
            && ResolvePath(env, ["state", "id"], snap.world) == Ok(Str(run.state))
            && ResolvePath(env, ["state", "entered_at_ms"], snap.world) == Ok(Int(run.enteredAt))
            && ResolvePath(env, ["state", "duration_ms"], snap.world) == Ok(Int(lasted))
    ensures if run.enteredAt <= snap.stateClock then run.enteredAt + lasted == snap.stateClock else lasted == 0
  {
    var env := EnvOf(run, context, snap);
    var entries := Lookup(env, "state").entries;
    OneKey(env, "state", entries, "id", snap.world);
    OneKey(env, "state", entries, "entered_at_ms", snap.world);
    OneKey(env, "state", entries, "duration_ms", snap.world);
    lasted := entries["duration_ms"].n;
  }

  /** `event` shows the payload, with the type, the message id and the source over it. */
  lemma EventPaths(run: Run, context: Context, snap: Snap, key: string)
    ensures var env, ev := EnvOf(run, context, snap), run.ev;
            ResolvePath(env, ["event", key], snap.world) == Ok(
              if key == "type" then Str(ev.kind)
              else if key == "message_id" && ev.messageId.Some? then Str(ev.messageId.value)
              else if key == "source_peer" && ev.sourcePeer.Some? then Str(ev.sourcePeer.value)
              else if key in ev.payload then ev.payload[key] else Null)
  {
    var env := EnvOf(run, context, snap);
    OneKey(env, "event", Lookup(env, "event").entries, key, snap.world);
  }

  /** The context is shown as it is at the moment, and the other namespaces and the clock as they were read. */
  lemma OtherPaths(run: Run, context: Context, snap: Snap, key: string)
    ensures var env := EnvOf(run, context, snap);
            && ResolvePath(env, ["context", key], snap.world) == Ok(if key in context then context[key] else Null)
            && ResolvePath(env, ["meta"], snap.world) == Ok(run.cfg.meta)
            && ResolvePath(env, ["peers"], snap.world) == Ok(snap.peers)
            && ResolvePath(env, ["history"], snap.world) == Ok(snap.history)
            && ResolvePath(env, ["now"], snap.world) == Ok(Int(snap.nowClock))
  {
    var env := EnvOf(run, context, snap);
    OneKey(env, "context", context, key, snap.world);
    WholeSpace(env, "meta", snap.world);
    WholeSpace(env, "peers", snap.world);
    WholeSpace(env, "history", snap.world);
  }

  // ---------- Entries and verdicts ----------

  /** The entries of an event are those written under it in the state, one or many, and none elsewhere. */
  lemma EntriesAre(cfg: Config, state: string, kind: string, e: Entry, es: seq<Entry>)
    ensures state in cfg.states && kind in cfg.states[state].on ==>
              && (cfg.states[state].on[kind] == One(e) ==> EntriesFor(cfg, state, kind) == [e])
              && (cfg.states[state].on[kind] == Many(es) ==> EntriesFor(cfg, state, kind) == es)
              && (cfg.states[state].on[kind] == NoHandlers ==> EntriesFor(cfg, state, kind) == [])
    ensures state in cfg.states && kind !in cfg.states[state].on ==> EntriesFor(cfg, state, kind) == []
    ensures state !in cfg.states ==> EntriesFor(cfg, state, kind) == []
  {
  }

  /** A guard passes when it is absent or empty, or parses to an expression that evaluates to a true value; else it
      was false, or did not parse, or could not be evaluated. */
  lemma GuardOutcomes(run: Run, context: Context, guard: Option<string>, i: nat)
    ensures var g, snap := CheckGuard(run, context, guard, i), run.o.guardSnap(i);
            if guard.None? || guard == Some("") then g == Passed
            else
              match Parse(guard.value)
              case None => g == WentWrong(guard.value, SyntaxError)
              case Some(e) =>
                match Evaluate(e, EnvOf(run, context, snap), snap.world)
                case Err(error) => g == WentWrong(guard.value, EvaluationError(error))
                case Ok(v) => if Truthy(v, snap.world) then g == Passed else g == WasFalse(guard.value, v)
  {
    hide Parse, Evaluate, EnvOf, Truthy;
  }

  /** Where the scan stops: at an entry whose guard does not pass, or whose target is there and not empty; an entry
      without target and a string in the place of an entry are passed over. */
  lemma StopsAt(run: Run, context: Context, entries: seq<Entry>, i: nat, target: string)
    requires i < |entries|
    ensures entries[i] == Shorthand ==> !Decisive(run, context, entries, i)
    ensures entries[i].Entry? && CheckGuard(run, context, entries[i].guard, i) != Passed ==> Decisive(run, context, entries, i)
    ensures entries[i].Entry? && CheckGuard(run, context, entries[i].guard, i) == Passed ==>
              && (entries[i].target == None || entries[i].target == Some("") ==> !Decisive(run, context, entries, i))
              && (entries[i].target == Some(target) && target != "" ==> Decisive(run, context, entries, i))
  {
    hide CheckGuard;
  }

  /** The reason a blocked transition gives: `guard_false`, the reason an exception carries, or
      `guard_eval_error`; together with the guard's text. */
  lemma BlockedGives(cfg: Config, core: Core, disk: Disk, ev: Event, o: Oracle, d: nat)
    requires FirstDecisive(RunOf(cfg, core, ev, o), core.context, EntriesFor(cfg, core.state, ev.kind), 0, d)
    requires CheckGuard(RunOf(cfg, core, ev, o), core.context, EntriesFor(cfg, core.state, ev.kind)[d].guard, d) != Passed
    ensures var g := CheckGuard(RunOf(cfg, core, ev, o), core.context, EntriesFor(cfg, core.state, ev.kind)[d].guard, d);
            var r := Transition(cfg, core, disk, ev, o).result;
            && r.NoMatch? && r.details == Guard(g) && Some(g.guard) == EntriesFor(cfg, core.state, ev.kind)[d].guard
            && (g.WasFalse? ==> r.reason == Some("guard_false"))
            && (g.WentWrong? && g.error.EvaluationError? && g.error.error.Diagnostic? ==> r.reason == Some(g.error.error.reason))
            && (g.WentWrong? && (g.error.SyntaxError? || !g.error.error.Diagnostic?) ==> r.reason == Some("guard_eval_error"))
  {
    var run, entries := RunOf(cfg, core, ev, o), EntriesFor(cfg, core.state, ev.kind);
    GuardOutcomes(run, core.context, entries[d].guard, d);
    hide CheckGuard, EntriesFor, Scan, Parse, Evaluate, EnvOf, Truthy, RunActions;
    ScanIsFirstVerdict(run, core.context, entries, 0);
  }

  // ---------- increment_context ----------

  /** What `int` makes of a context value: an integer itself, a float cut toward zero, a boolean as 1 or 0, text by
      the integer it spells; nothing of anything else. */
  ghost predicate CountsAs(v: Value, w: World, n: Option<int>) {
    match v
    case Int(i) => n == Some(i)
    case Bool(b) => n == Some(if b then 1 else 0)
    case Float(r) => n.Some? && n == Truncate(Float(r))
    case Str(s) => n == w.integer(s)
    case _ => n == None
  }

  lemma CountsAsOne(v: Value, w: World)
    ensures CountsAs(v, w, IntOf(v, w))
  {
  }

  /** An increment adds: after it the key holds the integer from which taking `amount` away gives the one before,
      0 for a key that was absent; a value that is no integer ends in an exception and changes nothing. */
  lemma IncrementAdds(run: Run, key: string, amount: int, k: nat, context: Context) returns (before: Option<int>)
    ensures CountsAs(if key in context then context[key] else Int(0), run.o.actionSnap(k, 0).world, before)
    ensures var out := DoAction(run, IncrementContext(key, amount), k, context);
            match before
            case None => out == Outcome(context, [], Raised)
            case Some(n) =>
              && out.status == Done && out.effects == []
              && out.context.Keys == context.Keys + {key}
              && out.context[key].Int? && out.context[key].n - amount == n
              && forall other :: other in context && other != key ==> out.context[other] == context[other]
  {
    var v := if key in context then context[key] else Int(0);
    before := IntOf(v, run.o.actionSnap(k, 0).world);
    CountsAsOne(v, run.o.actionSnap(k, 0).world);
    hide IntOf;
  }

  function Increments(key: string, m: nat): seq<Action> {
    seq(m, i => IncrementContext(key, 1))
  }

  /** Counting: `m` increments by one of a key that is absent leave `m`, and everything else alone. */
  lemma IncrementsCount(run: Run, key: string, m: nat, context: Context)
    requires key !in context && m > 0
    ensures RunActions(run, Increments(key, m), 0, context) == Outcome(context[key := Int(m)], [], Done)
  {
    var acts := Increments(key, m);
    assert DoAction(run, acts[0], 0, context) == Outcome(context[key := Int(1)], [], Done);
    CountOn(run, key, m, 1, context);
    assert [] + RunActions(run, acts, 1, context[key := Int(1)]).effects == [];
  }

  lemma {:induction false} CountOn(run: Run, key: string, m: nat, j: nat, context: Context)
    requires j <= m
    ensures RunActions(run, Increments(key, m), j, context[key := Int(j)]) == Outcome(context[key := Int(m)], [], Done)
    decreases m - j
  {
    var acts, c := Increments(key, m), context[key := Int(j)];
    if j < m {
      assert acts[j] == IncrementContext(key, 1);
      assert c[key := Int(j + 1)] == context[key := Int(j + 1)];
      assert DoAction(run, acts[j], j, c) == Outcome(context[key := Int(j + 1)], [], Done);
      CountOn(run, key, m, j + 1, context);
      assert [] + RunActions(run, acts, j + 1, context[key := Int(j + 1)]).effects == [];
    }
  }

  // ---------- set_context ----------

  /** One item after another: each template is rendered in the context of its turn, and what is recovered from the
      text is stored under its key. */
  ghost predicate Stores(run: Run, items: seq<(string, Source)>, k: nat, i: nat, before: Context, after: Context)
    requires i < |items|
  {
    var snap := run.o.actionSnap(k, i);
    exists s, v ::
      && RenderSource(items[i].1, EnvOf(run, before, snap), snap.world) == Output(s)
      && Recover(s, snap.world) == Some(v) && after == before[items[i].0 := v]
  }

  /** An item whose template cannot be rendered, or whose text cannot be recovered. */
  predicate Refused(run: Run, items: seq<(string, Source)>, k: nat, i: nat, before: Context)
    requires i < |items|
  {
    var snap := run.o.actionSnap(k, i);
    var rendered := RenderSource(items[i].1, EnvOf(run, before, snap), snap.world);
    rendered.RenderFailed? || Recover(rendered.s, snap.world).None?
  }

  ghost predicate StoresInTurn(run: Run, items: seq<(string, Source)>, k: nat, contexts: seq<Context>, from: nat) {
    && 0 < |contexts| && from + |contexts| <= |items| + 1
    && forall i :: 0 <= i < |contexts| - 1 ==> Stores(run, items, k, from + i, contexts[i], contexts[i + 1])
  }

  /** `set_context` goes through contexts, one for each item stored; when it raises, the item at which it stopped
      cannot be stored, and the items before it stay. */
  lemma {:induction false} SetItemsInTurn(run: Run, context: Context, items: seq<(string, Source)>, k: nat, j: nat)
    returns (contexts: seq<Context>)
    requires j <= |items|
    ensures StoresInTurn(run, items, k, contexts, j) && contexts[0] == context
    ensures var out := SetItems(run, context, items, k, j);
            && out.context == contexts[|contexts| - 1] && out.effects == []
            && (out.status == Done <==> j + |contexts| == |items| + 1)
            && (out.status != Done ==>
                 out.status == Raised && Refused(run, items, k, j + |contexts| - 1, contexts[|contexts| - 1]))
    decreases |items| - j
  {
    hide RenderSource, EnvOf, Recover;
    contexts := [context];
    if j < |items| {
      var snap := run.o.actionSnap(k, j);
      var rendered := RenderSource(items[j].1, EnvOf(run, context, snap), snap.world);
      if rendered.Output? && Recover(rendered.s, snap.world).Some? {
        var after := context[items[j].0 := Recover(rendered.s, snap.world).value];
        assert Stores(run, items, k, j, context, after);
        var rest := SetItemsInTurn(run, after, items, k, j + 1);
        contexts := [context] + rest;
        StoreFirst(run, items, k, context, rest, j);
      }
    }
  }

  lemma StoreFirst(run: Run, items: seq<(string, Source)>, k: nat, context: Context, rest: seq<Context>, j: nat)
    requires j < |items| && StoresInTurn(run, items, k, rest, j + 1) && Stores(run, items, k, j, context, rest[0])
    ensures StoresInTurn(run, items, k, [context] + rest, j)
  {
    hide Stores;
    var all := [context] + rest;
    forall i | 0 <= i < |all| - 1 ensures Stores(run, items, k, j + i, all[i], all[i + 1]) {
      if i > 0 {
        assert all[i] == rest[i - 1] && all[i + 1] == rest[i];
        assert Stores(run, items, k, j + 1 + (i - 1), rest[i - 1], rest[i]);
      }
    }
  }

  // ---------- Actions with effects ----------

  /** A log line, a reply and a send carry the rendered text, and each goes to whom it is for; the second call of a
      send, if there is one, carries the same text and no metadata. */
  lemma EffectsCarryTexts(run: Run, message: string, peer: string, metadata: Option<Metadata>, k: nat, context: Context, s: string)
    requires var snap := run.o.actionSnap(k, 0); Render(message, EnvOf(run, context, snap), snap.world) == Output(s)
    ensures DoAction(run, Log(message), k, context) == Outcome(context, [Logged(s)], Done)
    ensures run.ev.messageId.Some? && run.ev.messageId.value != "" ==>
              DoAction(run, ReplyA2A(message), k, context)
                == Outcome(context, [Replied(run.ev.messageId.value, s)], run.o.handler(k).status)
    ensures run.ev.messageId.None? || run.ev.messageId.value == "" ==>
              DoAction(run, ReplyA2A(message), k, context) == Outcome(context, [], ActionFailed)
    ensures metadata.None? ==>
              DoAction(run, SendA2A(peer, Textual(message), None), k, context)
                == Outcome(context, SendEffects(peer, s, None, run.o.handler(k).firstCall), run.o.handler(k).status)
    ensures var later := run.o.actionSnap(k, 1);
            metadata.Some? && RenderMetadata(metadata.value, EnvOf(run, context, later), later.world).Some? ==>
              DoAction(run, SendA2A(peer, Textual(message), metadata), k, context)
                == Outcome(context,
                           SendEffects(peer, s, RenderMetadata(metadata.value, EnvOf(run, context, later), later.world), run.o.handler(k).firstCall),
                           run.o.handler(k).status)
  {
    hide Render, EnvOf, RenderMetadata;
    assert [Logged(s)] + [] == [Logged(s)];
  }

  /** The dispatches of a send that renders: the whole message, unless the first call refuses it; and the text
      alone, if the first call raises TypeError at all. */
  function SendEffects(peer: string, s: string, metadata: Option<Metadata>, first: FirstCall): seq<Effect> {
    match first
    case NoTypeError => [Sent(peer, s, metadata, false)]
    case TypeErrorAtCall => [Sent(peer, s, None, true)]
    case TypeErrorAfterDispatch => [Sent(peer, s, metadata, false), Sent(peer, s, None, true)]
  }

  /** A registered handler is invoked by its name and edits the context as it likes; any other type of action, and
      an action without one, fails and does nothing. */
  lemma HandlersAct(run: Run, name: string, k: nat, context: Context)
    ensures name in run.cfg.registered ==>
              DoAction(run, Custom(name), k, context) == Outcome(run.o.handler(k).edit(context), [Invoked(name)], run.o.handler(k).status)
    ensures name !in run.cfg.registered ==> DoAction(run, Custom(name), k, context) == Outcome(context, [], ActionFailed)
    ensures DoAction(run, Untyped, k, context) == Outcome(context, [], ActionFailed)
  {
    assert [Invoked(name)] + [] == [Invoked(name)];
  }

  /** A value that is no text, in the place of a template, raises: nothing is stored and nothing is sent. */
  lemma NoTextRaises(run: Run, key: string, items: seq<(string, Source)>, peer: string, metadata: Option<Metadata>, k: nat, context: Context)
    ensures DoAction(run, SetContext([(key, NotText)] + items), k, context) == Outcome(context, [], Raised)
    ensures DoAction(run, SendA2A(peer, NotText, metadata), k, context) == Outcome(context, [], Raised)
  {
    assert ([(key, NotText)] + items)[0] == (key, NotText);
  }

  // ---------- Metadata ----------

  /** `r` is `m` with every text rendered where it stands, and nothing else changed. */
  ghost predicate RenderedAs(m: Metadata, r: Metadata, env: Env, w: World)
    decreases m
  {
    match m
    case MText(text) => r.MText? && Render(text, env, w) == Output(r.text)
    case MItems(items) =>
      r.MItems? && |r.items| == |items| && forall i :: 0 <= i < |items| ==> RenderedAs(items[i], r.items[i], env, w)
    case MFields(fields) =>
      r.MFields? && r.fields.Keys == fields.Keys && forall k :: k in fields ==> RenderedAs(fields[k], r.fields[k], env, w)
    case MOther(_) => r == m
  }

  /** Rendered metadata is the metadata with its texts rendered, at every depth, in the same shape. */
  lemma {:induction false} MetadataRendersAs(m: Metadata, env: Env, w: World)
    requires RenderMetadata(m, env, w).Some?
    ensures RenderedAs(m, RenderMetadata(m, env, w).value, env, w)
    decreases m, 0
  {
    hide Render;
    match m
    case MText(_) =>
    case MItems(items) => ItemsRenderAs(items, env, w);
    case MFields(fields) =>
      forall k | k in fields ensures RenderMetadata(fields[k], env, w).Some? && RenderedAs(fields[k], RenderMetadata(fields[k], env, w).value, env, w) {
        FieldRenders(fields, k, env, w);
        MetadataRendersAs(fields[k], env, w);
      }
    case MOther(_) =>
  }

  lemma FieldRenders(fields: map<string, Metadata>, k: string, env: Env, w: World)
    requires k in fields && RenderMetadata(MFields(fields), env, w).Some?
    ensures RenderMetadata(fields[k], env, w).Some?
  {
  }

  lemma {:induction false} ItemsRenderAs(items: seq<Metadata>, env: Env, w: World)
    requires RenderItems(items, env, w).Some?
    ensures forall i :: 0 <= i < |items| ==> RenderedAs(items[i], RenderItems(items, env, w).value[i], env, w)
    decreases items, 1
  {
    hide RenderMetadata, RenderedAs;
    if items != [] {
      MetadataRendersAs(items[0], env, w);
      ItemsRenderAs(items[1..], env, w);
      var r := RenderItems(items, env, w).value;
      forall i | 0 < i < |items| ensures RenderedAs(items[i], r[i], env, w) {
        assert items[i] == items[1..][i - 1] && r[i] == RenderItems(items[1..], env, w).value[i - 1];
      }
    }
  }

  // ---------- Documents ----------

  /** `part` is `whole` without what is excluded or has a sensitive word in its key. */
  ghost predicate IsHarmlessPart(cfg: Config, part: Context, whole: Context) {
    && (forall k :: k in part <==>
         && k in whole && k !in cfg.exclude
         && !Contains(Lower(k), "token") && !Contains(Lower(k), "secret")
         && !Contains(Lower(k), "password") && !Contains(Lower(k), "credential"))
    && (forall k :: k in part ==> part[k] == whole[k])
  }

  /** The document is a snapshot of the engine: schema 1, this plugin, its state and entry time, and the harmless
      part of its context. */
  ghost predicate IsSnapshot(cfg: Config, d: Document, core: Core) {
    && d.schemaVersion == Some(1) && d.name == Some(cfg.name) && d.version == cfg.version
    && d.stateId == Some(core.state) && d.enteredAt == Some(core.enteredAt)
    && d.context.Some? && IsHarmlessPart(cfg, d.context.value, core.context)
  }

  lemma KeptIsHarmlessPart(cfg: Config, context: Context)
    ensures IsHarmlessPart(cfg, Kept(context, cfg.exclude), context)
  {
    forall k { KeptIff(context, cfg.exclude, k); }
    hide Kept, Contains, Lower;
  }

  /** What `persist` writes is a snapshot of the engine. */
  lemma DocumentIsSnapshot(cfg: Config, core: Core, updatedAt: int)
    ensures IsSnapshot(cfg, DocumentOf(cfg, core, updatedAt), core) && DocumentOf(cfg, core, updatedAt).updatedAt == updatedAt
  {
    KeptIsHarmlessPart(cfg, core.context);
    hide Kept, IsHarmlessPart;
  }

  /** Restoring from a snapshot gives back what it shows. */
  lemma SnapshotRestores(cfg: Config, d: Document, shown: Core, core: Core, disk: Disk, ignoreCorrupt: bool, backupWorks: bool, now: int)
    requires cfg.persistent && IsSnapshot(cfg, d, shown) && disk.target == Whole(d)
    ensures var (after, files, r) := Restore(cfg, core, disk, ignoreCorrupt, backupWorks, now);
            && r == Restored && files == disk
            && after.state == shown.state && after.enteredAt == shown.enteredAt && IsHarmlessPart(cfg, after.context, shown.context)
  {
    hide IsHarmlessPart;
  }
}
