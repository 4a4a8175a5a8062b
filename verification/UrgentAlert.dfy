/** Where an alert comes from: guard, history proxies, cache and backend together. An alert goes out only if the
    backend, asked after the trigger was received, answered an inbound text with the word in it. */
module UrgentAlert {
  import opened Text
  import opened Grammar
  import opened Evaluator
  import opened Template
  import opened Chart
  import opened ChartFacts
  import opened OwnerAlert
  import opened HistoryCache
  import opened Inbound
  import opened PeerProxy

  const NEEDLE: string := "urgent:"
  const SCAN: string := "last_inbound_contains"

  /** One reading of a peer's messages during the guard: what happened to the client since the trigger was
      received, the clock, what the backend says if it is asked, when that is stored, and the messages in the
      answer. */
  datatype Reading = Reading(between: seq<Op>, now: int, answer: Option<Payload>, done: int, messages: seq<Message>)

  /** A history client with its ttl and what happened to it before the trigger was received. */
  datatype History = History(client: Client, ttl: nat, before: seq<Op>)

  /** Receiving a trigger clears the cache. */
  function ClientAt(h: History, x: Reading): Client {
    AfterAll(h.client, h.ttl, h.before + [Invalidated] + x.between)
  }

  function ReadBy(h: History, x: Reading, m: PeerMeta): (Client, Reply) {
    Read(ClientAt(h, x), h.ttl, HistoryQuery(m), x.now, x.answer, x.done)
  }

  function ReplyTo(h: History, x: Reading, meta: Option<PeerMeta>): Reply {
    if meta.Some? then ReadBy(h, x, meta.value).1 else Reply.PeerNotFound
  }

  function Known(byName: map<string, PeerMeta>, name: string): Option<PeerMeta> {
    if name in byName then Some(byName[name]) else None
  }

  /** In the snapshot, `peers.<name>.history` is either nothing or answers `last_inbound_contains` as the proxy
      over this history client does. */
  ghost predicate Serves(snap: Snap, name: string, byName: map<string, PeerMeta>, h: History, x: Reading) {
    var proxy, reply := Walk(snap.peers, [name, "history"], snap.world), ReplyTo(h, x, Known(byName, name));
    && x.now <= x.done
    && (reply.Found? ==> reply.value == MessageValues(x.messages))
    && (proxy == Null || snap.world.call(proxy, SCAN, [Str(NEEDLE)]) == ScanOutcome(Known(byName, name), reply, x.messages, NEEDLE))
  }

  // ---------- What a true peer test means ----------

  lemma {:induction false} NeedleArgument(env: Env, w: World)
    ensures EvaluateAll([Lit(LString(NEEDLE))], env, w) == Values([Str(NEEDLE)])
  {
    var args := [Lit(LString(NEEDLE))];
    assert args[1..] == [];
    assert EvaluateAll(args[1..], env, w) == Values([]);
    assert [Str(NEEDLE)] + [] == [Str(NEEDLE)];
  }

  lemma ProxyResolves(run: Run, context: Context, snap: Snap, name: string)
    ensures ResolvePath(EnvOf(run, context, snap), ["peers", name, "history", SCAN][..3], snap.world)
         == Ok(Walk(snap.peers, [name, "history"], snap.world))
  {
    assert ["peers", name, "history", SCAN][..3] == ["peers", name, "history"];
    assert ["peers", name, "history"][1..] == [name, "history"];
    hide Walk;
  }

  /** A true peer test is a scan that returned a true value. */
  lemma {:induction false} TestIsScan(run: Run, context: Context, snap: Snap, name: string)
    requires var v := Evaluate(TestSyntax(name), EnvOf(run, context, snap), snap.world); v.Ok? && Truthy(v.value, snap.world)
    ensures var proxy := Walk(snap.peers, [name, "history"], snap.world);
            proxy != Null && var r := snap.world.call(proxy, SCAN, [Str(NEEDLE)]); r.Returned? && Truthy(r.value, snap.world)
  {
    var env := EnvOf(run, context, snap);
    ProxyResolves(run, context, snap, name);
    NeedleArgument(env, snap.world);
    hide ResolvePath, EnvOf, Walk, EvaluateAll;
  }

  /** One of the two peers' tests is true on its own. */
  lemma {:induction false} OneTestIsTrue(a: string, b: string, env: Env, w: World) returns (x: string)
    requires PeerTest(a, b, env, w)
    ensures x == a || x == b
    ensures var v := Evaluate(TestSyntax(x), env, w); v.Ok? && Truthy(v.value, w)
  {
    hide Truthy, TestSyntax;
    var l := Evaluate(TestSyntax(a), env, w);
    x := if l.Ok? && Truthy(l.value, w) then a else b;
  }

  // ---------- The theorem ----------

  /** The `j`-th backend answer, given after the trigger was received, is one to the question this peer's history
      is asked, and an inbound text part of it contains the needle. */
  ghost predicate UrgentAnswer(h: History, x: Reading, m: PeerMeta, j: nat) {
    var resolved := ResolutionOf(ClientAt(h, x).aliases, HistoryQuery(m));
    && |AfterAll(h.client, h.ttl, h.before).log| <= j
    && resolved.Target?
    && Answers(ReadBy(h, x, m).0, j, RequestFor(HistoryQuery(m), resolved.target), MessageValues(x.messages))
    && SomeContains(InboundTexts(x.messages, |x.messages|), NEEDLE)
  }

  lemma ScanIsUrgent(snap: Snap, name: string, byName: map<string, PeerMeta>, h: History, x: Reading) returns (j: nat)
    requires Faithful(h.client) && Serves(snap, name, byName, h, x)
    requires var proxy := Walk(snap.peers, [name, "history"], snap.world);
             proxy != Null && var r := snap.world.call(proxy, SCAN, [Str(NEEDLE)]); r.Returned? && Truthy(r.value, snap.world)
    ensures name in byName && UrgentAnswer(h, x, byName[name], j)
  {
    hide Walk, AfterAll, Read, SomeContains, Faithful, MessageValues, InboundTexts;
    ScanIsTrueIff(Known(byName, name), ReplyTo(h, x, Known(byName, name)), x.messages, NEEDLE);
    var q := HistoryQuery(byName[name]);
    j := ReadAfterTriggerIsNew(h.client, h.ttl, h.before, x.between, q, x.now, x.answer, x.done);
    ReadResolves(ClientAt(h, x), h.ttl, q, x.now, x.answer, x.done);
  }

  lemma ReadResolves(c: Client, ttl: int, q: Query, now: int, answer: Option<Payload>, done: int)
    requires Read(c, ttl, q, now, answer, done).1.Found?
    ensures ResolutionOf(c.aliases, q).Target?
  {
  }

  /** An alert goes out only for a text: when a transition of the plugin sends, then for one of its two peers the
      backend answered, after the trigger was received, messages of which an inbound text part contains the word
      that the guard looks for. */
  lemma AlertNeedsUrgentText(cfg: Config, a: string, b: string, message: string, peer: string, text: Source,
                             metadata: Option<Metadata>, core: Core, disk: Disk, ev: Event, o: Oracle, last: int,
                             byName: map<string, PeerMeta>, h: History, x: Reading, y: Reading)
    returns (name: string, reading: Reading, j: nat)
    requires IsAlias(a) && IsAlias(b)
    requires cfg == AlertConfig(a, b, message, peer, text, metadata, cfg.name, cfg.version, cfg.meta, cfg.persistent, cfg.exclude)
    requires Watches(core, last) && IntegerRound(ev) && ev.kind == "history_change"
    requires Sends(Transition(cfg, core, disk, ev, o).effects) > 0
    requires Faithful(h.client)
    requires Serves(o.guardSnap(0), a, byName, h, x) && Serves(o.guardSnap(0), b, byName, h, y)
    ensures (name == a && reading == x) || (name == b && reading == y)
    ensures name in byName && UrgentAnswer(h, reading, byName[name], j)
  {
    hide IsAlias, AlertConfig, GuardText, CheckGuard, Transition, StartAction, Serves, UrgentAnswer, Faithful, EnvOf, PeerTest;
    var run, snap := RunOf(cfg, core, ev, o), o.guardSnap(0);
    var after := AlertStepOf(cfg, a, b, message, peer, text, metadata, core, disk, ev, o, last);
    GuardIff(a, b, run, core.context, last, ev.payload["new_round"].n, 0);
    name := OneTestIsTrue(a, b, EnvOf(run, core.context, snap), snap.world);
    TestIsScan(run, core.context, snap, name);
    reading := if name == a then x else y;
    j := ScanIsUrgent(snap, name, byName, h, reading);
  }
}
