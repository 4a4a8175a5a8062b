/** The trigger registry of core/trigger.py: two maps that must agree while registrations complete or fail
    and a teardown is under way. */
module Registry {
  import opened Text

  /** A trigger, as far as the registry uses it. */
  datatype Trigger = Trigger(id: string, plugin: string)

  type Triggers = map<string, Trigger>
  type ByPlugin = map<string, seq<string>>

  function IdsOf(byPlugin: ByPlugin, plugin: string): seq<string> {
    if plugin in byPlugin then byPlugin[plugin] else []
  }

  predicate Distinct(ids: seq<string>) {
    forall i, j :: 0 <= i < j < |ids| ==> ids[i] != ids[j]
  }

  /** The two maps agree: the lists have no repetitions, and a trigger is registered exactly when its id
      stands in the list of its plugin, and in no other. */
  ghost predicate Agree(triggers: Triggers, byPlugin: ByPlugin) {
    && (forall p :: p in byPlugin ==> Distinct(byPlugin[p]))
    && (forall id :: id in triggers ==> triggers[id].id == id && id in IdsOf(byPlugin, triggers[id].plugin))
    && (forall p, id :: p in byPlugin && id in byPlugin[p] ==> id in triggers && triggers[id].plugin == p)
  }

  function Without(triggers: Triggers, ids: seq<string>): Triggers {
    map id | id in triggers && id !in ids :: triggers[id]
  }

  function Others(triggers: Triggers, plugin: string): Triggers {
    map id | id in triggers && triggers[id].plugin != plugin :: triggers[id]
  }

  lemma WithoutNone(triggers: Triggers, ids: seq<string>)
    ensures Without(triggers, ids[..0]) == triggers && ids[..0] == [] && ids[..|ids|] == ids
  {
  }

  ghost predicate AllRegistered(triggers: Triggers, ids: seq<string>) {
    forall i :: 0 <= i < |ids| ==> ids[i] in triggers
  }

  lemma WithoutMore(triggers: Triggers, torn: seq<string>, ids: seq<string>, i: nat)
    requires i < |ids| && AllRegistered(triggers, ids) && Distinct(ids)
    ensures ids[i] in Without(triggers, ids[..i])
    ensures Without(triggers, ids[..i + 1]) == Without(triggers, ids[..i]) - {ids[i]}
    ensures torn + ids[..i + 1] == torn + ids[..i] + [ids[i]]
  {
  }

  lemma ListedAreRegistered(triggers: Triggers, byPlugin: ByPlugin, plugin: string)
    requires Agree(triggers, byPlugin)
    ensures AllRegistered(triggers, IdsOf(byPlugin, plugin)) && Distinct(IdsOf(byPlugin, plugin))
  {
  }

  /** Dropping a plugin's list and its triggers keeps the maps in agreement, and the ids in its list are all its
      triggers. */
  lemma RemovalAgrees(triggers: Triggers, byPlugin: ByPlugin, plugin: string)
    requires Agree(triggers, byPlugin)
    ensures Without(triggers, IdsOf(byPlugin, plugin)) == Others(triggers, plugin)
    ensures Agree(Others(triggers, plugin), byPlugin - {plugin})
  {
  }

  /** Entering a trigger into agreeing maps leaves them in agreement exactly when its id is not registered,
      whether for the same plugin or for another. */
  lemma EnteringAgreesIff(triggers: Triggers, byPlugin: ByPlugin, t: Trigger)
    requires Agree(triggers, byPlugin)
    ensures Agree(triggers[t.id := t], byPlugin[t.plugin := IdsOf(byPlugin, t.plugin) + [t.id]]) <==> t.id !in triggers
  {
    if t.id in triggers {
      EnteringTwice(triggers, byPlugin, t);
    } else {
      EnteringNew(triggers, byPlugin, t);
    }
    hide Agree;
  }

  lemma EnteringTwice(triggers: Triggers, byPlugin: ByPlugin, t: Trigger)
    requires Agree(triggers, byPlugin) && t.id in triggers
    ensures !Agree(triggers[t.id := t], byPlugin[t.plugin := IdsOf(byPlugin, t.plugin) + [t.id]])
  {
    var ids, p := IdsOf(byPlugin, t.plugin), triggers[t.id].plugin;
    var byPlugin' := byPlugin[t.plugin := ids + [t.id]];
    if p == t.plugin {
      var i :| 0 <= i < |ids| && ids[i] == t.id;
      assert byPlugin'[p][i] == byPlugin'[p][|ids|];
    } else {
      assert t.id in byPlugin'[p] && triggers[t.id := t][t.id].plugin != p;
    }
  }

  lemma EnteringNew(triggers: Triggers, byPlugin: ByPlugin, t: Trigger)
    requires Agree(triggers, byPlugin) && t.id !in triggers
    ensures Agree(triggers[t.id := t], byPlugin[t.plugin := IdsOf(byPlugin, t.plugin) + [t.id]])
  {
    var ids := IdsOf(byPlugin, t.plugin);
    assert (ids + [t.id])[|ids|] == t.id;
    assert t.id !in ids;
    assert forall id :: id in ids ==> id in ids + [t.id];
  }

  function Owned(triggers: Triggers, plugin: string): set<string> {
    set id | id in triggers && triggers[id].plugin == plugin
  }

  /** A list without repetitions, as a multiset, is the set of its members. */
  lemma {:induction false} DistinctIsSet(ids: seq<string>, members: set<string>)
    requires Distinct(ids) && forall id :: id in members <==> id in ids
    ensures multiset(ids) == multiset(members)
  {
    if ids == [] {
      assert members == {};
    } else {
      var front, last := ids[..|ids| - 1], ids[|ids| - 1];
      assert ids == front + [last];
      forall id ensures id in members - {last} <==> id in front {}
      DistinctIsSet(front, members - {last});
      assert members == (members - {last}) + {last};
    }
  }

  /** The ids in a plugin's list and those of all other triggers are all ids, each once. */
  lemma ListAndOthers(triggers: Triggers, byPlugin: ByPlugin, plugin: string)
    requires Agree(triggers, byPlugin)
    ensures multiset(IdsOf(byPlugin, plugin)) + multiset(Others(triggers, plugin).Keys) == multiset(triggers.Keys)
  {
    DistinctIsSet(IdsOf(byPlugin, plugin), Owned(triggers, plugin));
    assert triggers.Keys == Owned(triggers, plugin) + Others(triggers, plugin).Keys;
  }

  /** Torn-down ids join the ones before them, and the keys they take away leave the rest. */
  lemma TornMore(start: nat, before: seq<string>, ids: seq<string>, keys: set<string>, rest: set<string>)
    requires start <= |before| && multiset(ids) + multiset(rest) == multiset(keys)
    ensures (before + ids)[..start] == before[..start]
    ensures multiset((before + ids)[start..]) + multiset(rest) == multiset(before[start..]) + multiset(keys)
  {
    assert (before + ids)[start..] == before[start..] + ids;
  }

  lemma NothingLeft(triggers: Triggers, byPlugin: ByPlugin)
    requires Agree(triggers, byPlugin) && byPlugin.Keys == {}
    ensures triggers == map[] && byPlugin == map[] && multiset(triggers.Keys) == multiset{}
  {
    assert forall id :: id in triggers ==> id in IdsOf(byPlugin, triggers[id].plugin);
    assert triggers.Keys == {};
  }

  // ---------- The scheduler object, one call at a time ----------

  class TriggerScheduler {
    var triggers: Triggers
    var byPlugin: ByPlugin
    var torn: seq<string>      // the ids whose teardown was called, in order

    constructor ()
      ensures triggers == map[] && byPlugin == map[] && torn == []
    {
      triggers, byPlugin, torn := map[], map[], [];
    }

    /** `register`, once `setup` is over; `setupWorks` is whether it did not raise. */
    method Register(t: Trigger, setupWorks: bool) returns (ok: bool)
      modifies this
      ensures ok == setupWorks && torn == old(torn)
      ensures triggers == (if ok then old(triggers)[t.id := t] else old(triggers))
      ensures byPlugin == (if ok then old(byPlugin)[t.plugin := IdsOf(old(byPlugin), t.plugin) + [t.id]] else old(byPlugin))
      ensures ok && old(Agree(triggers, byPlugin)) ==> (Agree(triggers, byPlugin) <==> t.id !in old(triggers))
    {
      ghost var agreed := Agree(triggers, byPlugin);
      if agreed {
        EnteringAgreesIff(triggers, byPlugin, t);
      }
      hide Agree;
      if !setupWorks {
        return false;
      }
      triggers := triggers[t.id := t];
      byPlugin := byPlugin[t.plugin := IdsOf(byPlugin, t.plugin) + [t.id]];
      return true;
    }

    /** `unregister_plugin`: exactly the plugin's triggers are torn down, once each, in order, whatever their
        teardowns raise. */
    method UnregisterPlugin(plugin: string)
      requires Agree(triggers, byPlugin)
      modifies this
      ensures Agree(triggers, byPlugin)
      ensures torn == old(torn) + IdsOf(old(byPlugin), plugin)
      ensures byPlugin == old(byPlugin) - {plugin}
      ensures triggers == Others(old(triggers), plugin)
    {
      RemovalAgrees(triggers, byPlugin, plugin);
      ListedAreRegistered(triggers, byPlugin, plugin);
      var ids := IdsOf(byPlugin, plugin);
      ghost var was, before := triggers, torn;
      hide Agree, Without, Others, IdsOf, AllRegistered, Distinct;
      WithoutNone(triggers, ids);
      var i := 0;
      while i < |ids|
        invariant 0 <= i <= |ids|
        invariant byPlugin == old(byPlugin)
        invariant torn == before + ids[..i]
        invariant triggers == Without(was, ids[..i])
      {
        var id := ids[i];
        WithoutMore(was, before, ids, i);
        assert id in triggers;
        if id in triggers {
          torn := torn + [id];
          triggers := triggers - {id};
        }
        i := i + 1;
      }
      assert triggers == Others(was, plugin) && torn == before + ids;
      byPlugin := byPlugin - {plugin};
    }

    /** `shutdown`: every registered trigger is torn down exactly once, nothing else is, and nothing is left. */
    method Shutdown()
      requires Agree(triggers, byPlugin)
      modifies this
      ensures triggers == map[] && byPlugin == map[]
      ensures |torn| >= |old(torn)| && torn[..|old(torn)|] == old(torn)
      ensures multiset(torn[|old(torn)|..]) == multiset(old(triggers).Keys)
    {
      hide Agree, IdsOf, Others;
      var left := byPlugin.Keys;
      while left != {}
        invariant Agree(triggers, byPlugin) && byPlugin.Keys == left
        invariant |torn| >= |old(torn)| && torn[..|old(torn)|] == old(torn)
        invariant multiset(torn[|old(torn)|..]) + multiset(triggers.Keys) == multiset(old(triggers).Keys)
        decreases left
      {
        var plugin :| plugin in left;
        left := left - {plugin};
        ghost var before, ids, keys := torn, IdsOf(byPlugin, plugin), triggers.Keys;
        ListAndOthers(triggers, byPlugin, plugin);
        UnregisterPlugin(plugin);
        TornMore(|old(torn)|, before, ids, keys, triggers.Keys);
      }
      NothingLeft(triggers, byPlugin);
    }

    /** `by_plugin`: every id in the list is found. */
    method ByPlugin(plugin: string) returns (ts: seq<Trigger>)
      requires Agree(triggers, byPlugin)
      ensures |ts| == |IdsOf(byPlugin, plugin)|
      ensures forall i :: 0 <= i < |ts| ==> ts[i].id == IdsOf(byPlugin, plugin)[i] && ts[i].plugin == plugin
      ensures forall id :: id in triggers && triggers[id].plugin == plugin ==> triggers[id] in ts
    {
      ts := [];
      var ids := IdsOf(byPlugin, plugin);
      var i := 0;
      while i < |ids|
        invariant 0 <= i <= |ids| && |ts| == i
        invariant forall j :: 0 <= j < i ==> ids[j] in triggers && ts[j] == triggers[ids[j]]
      {
        assert ids[i] in triggers;
        ts := ts + [triggers[ids[i]]];
        i := i + 1;
      }
      forall id | id in triggers && triggers[id].plugin == plugin
        ensures triggers[id] in ts
      {
        var j :| 0 <= j < |ids| && ids[j] == id;
        assert ts[j] == triggers[id];
      }
    }
  }

  // ---------- Interleavings ----------

  /** An `unregister_plugin` in progress: its plugin, its place in the list, and whether it awaits the teardown
      of the trigger there. It iterates over the list itself, so triggers registered meanwhile are visited; once
      another unregistering has dropped that list, `own` is what it still holds. */
  datatype Unregister = Unregister(plugin: string, i: nat, awaiting: bool, own: Option<seq<string>>)

  /** The registry with its running teardowns and three histories: the plugin of every id ever registered, the
      ids whose teardown was called, and the unregisterings that ended in a KeyError. */
  datatype State = State(
    triggers: Triggers, byPlugin: ByPlugin, running: map<nat, Unregister>,
    seen: map<string, string>, torn: seq<string>, failed: set<nat>)

  const EMPTY: State := State(map[], map[], map[], map[], [], {})

  /** The list an unregistering iterates over. */
  function ListOf(s: State, r: Unregister): seq<string> {
    if r.own.Some? then r.own.value else IdsOf(s.byPlugin, r.plugin)
  }

  /** The other unregisterings of a plugin keep the list that is dropped. */
  function Keep(running: map<nat, Unregister>, plugin: string, ids: seq<string>): map<nat, Unregister> {
    map u | u in running ::
      if running[u].plugin == plugin && running[u].own.None? then running[u].(own := Some(ids)) else running[u]
  }

  datatype Step =
    | Registered(t: Trigger)
    | RegisterFailed(t: Trigger)
    | Begin(u: nat, plugin: string)
    | Visit(u: nat)
    | TornDown(u: nat, raised: bool)
    | Finish(u: nat)

  predicate Enabled(s: State, step: Step) {
    match step
    case Registered(_) => true
    case RegisterFailed(_) => true
    case Begin(u, _) => u !in s.running
    case Visit(u) => u in s.running && !s.running[u].awaiting && s.running[u].i < |ListOf(s, s.running[u])|
    case TornDown(u, _) => u in s.running && s.running[u].awaiting && s.running[u].i < |ListOf(s, s.running[u])|
    case Finish(u) => u in s.running && !s.running[u].awaiting && s.running[u].i >= |ListOf(s, s.running[u])|
  }

  function Apply(s: State, step: Step): State
    requires Enabled(s, step)
  {
    match step
    case Registered(t) =>
      s.(triggers := s.triggers[t.id := t],
         byPlugin := s.byPlugin[t.plugin := IdsOf(s.byPlugin, t.plugin) + [t.id]],
         seen := s.seen[t.id := t.plugin])
    case RegisterFailed(_) => s
    case Begin(u, plugin) => s.(running := s.running[u := Unregister(plugin, 0, false, None)])
    case Visit(u) =>
      var r := s.running[u];
      var id := ListOf(s, r)[r.i];
      if id in s.triggers then s.(running := s.running[u := r.(awaiting := true)], torn := s.torn + [id])
      else s.(running := s.running[u := r.(i := r.i + 1)])
    case TornDown(u, _) =>
      // Whether the teardown raised makes no difference: the exception is logged and dropped.
      var r := s.running[u];
      var id := ListOf(s, r)[r.i];
      if id !in s.triggers then s.(failed := s.failed + {u}, running := s.running - {u})
      else s.(triggers := s.triggers - {id}, running := s.running[u := r.(i := r.i + 1, awaiting := false)])
    case Finish(u) =>
      var plugin := s.running[u].plugin;
      s.(byPlugin := s.byPlugin - {plugin}, running := Keep(s.running - {u}, plugin, IdsOf(s.byPlugin, plugin)))
  }

  /** No id is registered that was registered before, and a plugin is unregistered from one place at a time.
      The source does not see to either: ids come from the plugin files as they are. */
  predicate Orderly(s: State, step: Step) {
    match step
    case Registered(t) => t.id !in s.seen
    case Begin(_, plugin) => forall u :: u in s.running ==> s.running[u].plugin != plugin
    case _ => true
  }

  function Run(s: State, steps: seq<Step>): Option<State>
    decreases |steps|
  {
    if steps == [] then Some(s)
    else if !Enabled(s, steps[0]) || !Orderly(s, steps[0]) then None
    else Run(Apply(s, steps[0]), steps[1..])
  }

  /** How many teardowns of its list an unregistering has called. */
  function Begun(r: Unregister): nat {
    if r.awaiting then r.i + 1 else r.i
  }

  /** The list of a plugin whose teardown has removed the first `i` and begun the first `begun`: exactly the rest
      is registered, and exactly the begun ones were torn down, once each. */
  ghost predicate Progress(s: State, plugin: string, i: nat, begun: nat) {
    var ids := IdsOf(s.byPlugin, plugin);
    && i <= begun <= |ids|
    && (forall j :: 0 <= j < |ids| ==> (ids[j] in s.triggers <==> i <= j))
    && (forall j :: 0 <= j < |ids| ==> multiset(s.torn)[ids[j]] == if j < begun then 1 else 0)
  }

  ghost predicate Idle(s: State, plugin: string) {
    forall u :: u in s.running ==> s.running[u].plugin != plugin
  }

  /** Lists have no repetitions and hold ids of their own plugin. */
  ghost predicate Lists(s: State) {
    && (forall p :: p in s.byPlugin ==> Distinct(s.byPlugin[p]))
    && (forall p, j :: p in s.byPlugin && 0 <= j < |s.byPlugin[p]| ==>
          s.byPlugin[p][j] in s.seen && s.seen[s.byPlugin[p][j]] == p)
  }

  /** An id that has left its list is gone, and was torn down once; an id never registered never was. */
  ghost predicate Ids(s: State) {
    && (forall id :: id in s.triggers ==> id in s.seen && s.triggers[id] == Trigger(id, s.seen[id]))
    && (forall id :: id in s.seen && id !in IdsOf(s.byPlugin, s.seen[id]) ==> id !in s.triggers && multiset(s.torn)[id] == 1)
    && (forall id :: id !in s.seen ==> multiset(s.torn)[id] == 0)
  }

  ghost predicate Teardowns(s: State) {
    && (forall u, v :: u in s.running && v in s.running && s.running[u].plugin == s.running[v].plugin ==> u == v)
    && (forall u :: u in s.running ==>
          s.running[u].own.None? && Progress(s, s.running[u].plugin, s.running[u].i, Begun(s.running[u])))
    && (forall p :: Idle(s, p) ==> Progress(s, p, 0, 0))
  }

  ghost predicate Inv(s: State) {
    s.failed == {} && Lists(s) && Ids(s) && Teardowns(s)
  }

  // ---------- Every orderly step keeps the registry consistent ----------

  lemma RegisteredKeeps(s: State, t: Trigger)
    requires Inv(s) && t.id !in s.seen
    ensures Inv(Apply(s, Registered(t)))
  {
    var s' := Apply(s, Registered(t));
    forall p, i, begun | Progress(s, p, i, begun) && (p == t.plugin ==> true)
      ensures Progress(s', p, i, begun)
    {
      RegisteredProgress(s, t, p, i, begun);
    }
    assert forall p :: Idle(s', p) <==> Idle(s, p);
    RegisteredLists(s, t);
    RegisteredIds(s, t);
    hide Progress;
  }

  lemma RegisteredProgress(s: State, t: Trigger, p: string, i: nat, begun: nat)
    requires Lists(s) && Ids(s) && t.id !in s.seen && Progress(s, p, i, begun)
    ensures Progress(Apply(s, Registered(t)), p, i, begun)
  {
    var ids := IdsOf(s.byPlugin, p);
    forall j | 0 <= j < |ids| ensures ids[j] != t.id {
      assert ids[j] in s.seen;
    }
  }

  lemma RegisteredLists(s: State, t: Trigger)
    requires Lists(s) && Ids(s) && t.id !in s.seen
    ensures Lists(Apply(s, Registered(t)))
  {
  }

  lemma RegisteredIds(s: State, t: Trigger)
    requires Lists(s) && Ids(s) && t.id !in s.seen
    ensures Ids(Apply(s, Registered(t)))
  {
    var s' := Apply(s, Registered(t));
    forall id | id in s'.seen && id !in IdsOf(s'.byPlugin, s'.seen[id])
      ensures id !in s'.triggers && multiset(s'.torn)[id] == 1
    {
      assert id != t.id by { assert IdsOf(s'.byPlugin, t.plugin)[|IdsOf(s.byPlugin, t.plugin)|] == t.id; }
      assert forall x :: x in IdsOf(s.byPlugin, s.seen[id]) ==> x in IdsOf(s'.byPlugin, s.seen[id]);
    }
  }

  lemma SameProgress(s: State, s': State)
    requires s'.triggers == s.triggers && s'.byPlugin == s.byPlugin && s'.torn == s.torn
    ensures forall p, i, begun :: Progress(s', p, i, begun) == Progress(s, p, i, begun)
  {
  }

  lemma BeginTeardowns(s: State, u: nat, plugin: string)
    requires Teardowns(s) && u !in s.running && Idle(s, plugin)
    ensures Teardowns(s.(running := s.running[u := Unregister(plugin, 0, false, None)]))
  {
    var s' := s.(running := s.running[u := Unregister(plugin, 0, false, None)]);
    SameProgress(s, s');
    hide Progress;
    forall p | Idle(s', p) ensures Idle(s, p) {
      forall v | v in s.running ensures s.running[v].plugin != p {
        assert s'.running[v] == s.running[v];
      }
    }
  }

  lemma BeginKeeps(s: State, u: nat, plugin: string)
    requires Inv(s) && Enabled(s, Begin(u, plugin)) && Orderly(s, Begin(u, plugin))
    ensures Inv(Apply(s, Begin(u, plugin)))
  {
    BeginTeardowns(s, u, plugin);
    SameBooks(s, Apply(s, Begin(u, plugin)));
    hide Teardowns, Lists, Ids;
  }

  /** Lists and ids do not depend on the teardowns under way. */
  lemma SameBooks(s: State, s': State)
    requires s'.triggers == s.triggers && s'.byPlugin == s.byPlugin && s'.seen == s.seen && s'.torn == s.torn
    ensures Lists(s') == Lists(s) && Ids(s') == Ids(s)
  {
  }

  lemma VisitKeeps(s: State, u: nat)
    requires Inv(s) && Enabled(s, Visit(u))
    ensures Inv(Apply(s, Visit(u)))
  {
    var r := s.running[u];
    var id := IdsOf(s.byPlugin, r.plugin)[r.i];
    assert id in s.triggers by { assert Progress(s, r.plugin, r.i, r.i); }
    VisitTeardowns(s, u);
    VisitIds(s, u);
    hide Teardowns, Ids;
  }

  lemma VisitIds(s: State, u: nat)
    requires Inv(s) && Enabled(s, Visit(u))
    ensures Ids(Apply(s, Visit(u)))
  {
    var r := s.running[u];
    assert s.seen[IdsOf(s.byPlugin, r.plugin)[r.i]] == r.plugin;
    hide Teardowns, Lists;
  }

  lemma VisitTeardowns(s: State, u: nat)
    requires Inv(s) && Enabled(s, Visit(u))
    ensures Teardowns(Apply(s, Visit(u)))
  {
    var s', r := Apply(s, Visit(u)), s.running[u];
    var id := IdsOf(s.byPlugin, r.plugin)[r.i];
    assert Progress(s, r.plugin, r.i, r.i) && id in s.triggers;
    VisitProgress(s, s', r.plugin, r.i);
    forall p, i, begun | p != r.plugin && Progress(s, p, i, begun) ensures Progress(s', p, i, begun) {
      OtherProgress(s, s', r.plugin, id, p, i, begun);
    }
    hide Progress, Lists, Ids, Teardowns;
    TeardownGoesOn(s, s', u, r.(awaiting := true));
  }

  /** One unregistering gets on, and nothing changes for the plugins of the others. */
  lemma TeardownGoesOn(s: State, s': State, u: nat, r: Unregister)
    requires Teardowns(s) && u in s.running && s'.running == s.running[u := r]
    requires r.plugin == s.running[u].plugin && r.own.None? && Progress(s', r.plugin, r.i, Begun(r))
    requires forall p, i, begun :: p != r.plugin && Progress(s, p, i, begun) ==> Progress(s', p, i, begun)
    ensures Teardowns(s')
  {
    SameIdle(s, s', u);
    hide Progress, Begun, Idle;
    assert !Idle(s, r.plugin) by { NotIdle(s, u); }
  }

  lemma NotIdle(s: State, u: nat)
    requires u in s.running
    ensures !Idle(s, s.running[u].plugin)
  {
  }

  lemma VisitProgress(s: State, s': State, plugin: string, i: nat)
    requires Lists(s) && Progress(s, plugin, i, i) && i < |IdsOf(s.byPlugin, plugin)|
    requires s'.byPlugin == s.byPlugin && s'.triggers == s.triggers
    requires s'.torn == s.torn + [IdsOf(s.byPlugin, plugin)[i]]
    ensures Progress(s', plugin, i, i + 1)
  {
    var ids := IdsOf(s.byPlugin, plugin);
    forall j | 0 <= j < |ids| && j != i ensures ids[j] != ids[i] {
      assert Distinct(ids);
    }
  }

  /** The lists of other plugins do not hold the id, so nothing changes for them. */
  lemma OtherProgress(s: State, s': State, plugin: string, id: string, p: string, i: nat, begun: nat)
    requires Lists(s) && p != plugin && Progress(s, p, i, begun) && id in IdsOf(s.byPlugin, plugin)
    requires s'.byPlugin == s.byPlugin
    requires s'.triggers == s.triggers || s'.triggers == s.triggers - {id}
    requires s'.torn == s.torn || s'.torn == s.torn + [id]
    ensures Progress(s', p, i, begun)
  {
    var ids := IdsOf(s.byPlugin, p);
    forall j | 0 <= j < |ids| ensures ids[j] != id {
      assert s.seen[ids[j]] == p && s.seen[id] == plugin;
    }
  }

  lemma SameIdle(s: State, s': State, u: nat)
    requires u in s.running && s'.running.Keys == s.running.Keys
    requires forall v :: v in s.running ==> s'.running[v].plugin == s.running[v].plugin
    ensures forall p :: Idle(s', p) <==> Idle(s, p)
  {
  }

  lemma TornDownKeeps(s: State, u: nat, raised: bool)
    requires Inv(s) && Enabled(s, TornDown(u, raised))
    ensures Inv(Apply(s, TornDown(u, raised)))
  {
    var r := s.running[u];
    var id := IdsOf(s.byPlugin, r.plugin)[r.i];
    assert id in s.triggers by { assert Progress(s, r.plugin, r.i, r.i + 1); }
    TornDownTeardowns(s, u, raised);
    TornDownIds(s, u, raised);
    hide Teardowns, Ids;
  }

  lemma TornDownIds(s: State, u: nat, raised: bool)
    requires Inv(s) && Enabled(s, TornDown(u, raised))
    ensures Ids(Apply(s, TornDown(u, raised)))
  {
    var r := s.running[u];
    assert s.seen[IdsOf(s.byPlugin, r.plugin)[r.i]] == r.plugin;
    hide Teardowns, Lists;
  }

  lemma TornDownTeardowns(s: State, u: nat, raised: bool)
    requires Inv(s) && Enabled(s, TornDown(u, raised))
    ensures Teardowns(Apply(s, TornDown(u, raised)))
  {
    var s', r := Apply(s, TornDown(u, raised)), s.running[u];
    var id := IdsOf(s.byPlugin, r.plugin)[r.i];
    assert Progress(s, r.plugin, r.i, r.i + 1) && id in s.triggers;
    TornDownProgress(s, s', r.plugin, r.i);
    assert s'.running == s.running[u := r.(i := r.i + 1, awaiting := false)] && s'.byPlugin == s.byPlugin;
    assert s'.triggers == s.triggers - {id} && s'.torn == s.torn && id in IdsOf(s.byPlugin, r.plugin);
    hide Apply, Ids, ListOf, Enabled, Teardowns;
    forall p, i, begun | p != r.plugin && Progress(s, p, i, begun) ensures Progress(s', p, i, begun) {
      OtherProgress(s, s', r.plugin, id, p, i, begun);
    }
    hide Progress, Lists, Ids, Teardowns;
    TeardownGoesOn(s, s', u, r.(i := r.i + 1, awaiting := false));
  }

  lemma TornDownProgress(s: State, s': State, plugin: string, i: nat)
    requires Lists(s) && Progress(s, plugin, i, i + 1) && i < |IdsOf(s.byPlugin, plugin)|
    requires s'.byPlugin == s.byPlugin && s'.torn == s.torn
    requires s'.triggers == s.triggers - {IdsOf(s.byPlugin, plugin)[i]}
    ensures Progress(s', plugin, i + 1, i + 1)
  {
    var ids := IdsOf(s.byPlugin, plugin);
    forall j | 0 <= j < |ids| && j != i ensures ids[j] != ids[i] {
      assert Distinct(ids);
    }
  }

  lemma FinishTeardowns(s: State, u: nat)
    requires Teardowns(s) && u in s.running
    ensures Keep(s.running - {u}, s.running[u].plugin, IdsOf(s.byPlugin, s.running[u].plugin)) == s.running - {u}
    ensures Teardowns(s.(byPlugin := s.byPlugin - {s.running[u].plugin}, running := s.running - {u}))
  {
    var plugin := s.running[u].plugin;
    var s' := s.(byPlugin := s.byPlugin - {plugin}, running := s.running - {u});
    FinishProgress(s, s', plugin);
    hide Progress;
    forall p | Idle(s', p) && p != plugin ensures Idle(s, p) {
      forall v | v in s.running ensures s.running[v].plugin != p {
        assert v != u ==> v in s'.running;
      }
    }
  }

  lemma FinishProgress(s: State, s': State, plugin: string)
    requires s'.triggers == s.triggers && s'.byPlugin == s.byPlugin - {plugin} && s'.torn == s.torn
    ensures Progress(s', plugin, 0, 0)
    ensures forall p, i, begun :: p != plugin ==> Progress(s', p, i, begun) == Progress(s, p, i, begun)
  {
    forall p, i, begun | p != plugin ensures Progress(s', p, i, begun) == Progress(s, p, i, begun) {
      assert IdsOf(s'.byPlugin, p) == IdsOf(s.byPlugin, p);
    }
  }

  lemma FinishLists(s: State, plugin: string)
    requires Lists(s)
    ensures Lists(s.(byPlugin := s.byPlugin - {plugin}))
  {
  }

  lemma FinishKeeps(s: State, u: nat)
    requires Inv(s) && Enabled(s, Finish(u))
    ensures Inv(Apply(s, Finish(u)))
  {
    FinishTeardowns(s, u);
    FinishIds(s, u);
    FinishLists(s, s.running[u].plugin);
    hide Teardowns, Ids;
  }

  lemma FinishIds(s: State, u: nat)
    requires Inv(s) && Enabled(s, Finish(u))
    ensures Ids(Apply(s, Finish(u)))
  {
    var s', r := Apply(s, Finish(u)), s.running[u];
    var ids := IdsOf(s.byPlugin, r.plugin);
    assert Progress(s, r.plugin, r.i, r.i) && r.i == |ids|;
    forall id | id in s'.seen && id !in IdsOf(s'.byPlugin, s'.seen[id])
      ensures id !in s'.triggers && multiset(s'.torn)[id] == 1
    {
      if id in IdsOf(s.byPlugin, s.seen[id]) {
        assert s.seen[id] == r.plugin;
        var j :| 0 <= j < |ids| && ids[j] == id;
      }
    }
  }

  lemma StepKeeps(s: State, step: Step)
    requires Inv(s) && Enabled(s, step) && Orderly(s, step)
    ensures Inv(Apply(s, step))
  {
    hide Inv;
    match step
    case Registered(t) => RegisteredKeeps(s, t);
    case RegisterFailed(_) =>
    case Begin(u, plugin) => BeginKeeps(s, u, plugin);
    case Visit(u) => VisitKeeps(s, u);
    case TornDown(u, raised) => TornDownKeeps(s, u, raised);
    case Finish(u) => FinishKeeps(s, u);
  }

  lemma {:induction false} RunKeeps(s: State, steps: seq<Step>)
    requires Inv(s) && Run(s, steps).Some?
    ensures Inv(Run(s, steps).value)
    decreases |steps|
  {
    hide Inv, Apply, Orderly;
    if steps != [] {
      StepKeeps(s, steps[0]);
      RunKeeps(Apply(s, steps[0]), steps[1..]);
    }
  }

  lemma EmptyInv()
    ensures Inv(EMPTY)
  {
  }

  // ---------- The theorems ----------

  /** In every orderly run no KeyError is raised, and every id ever registered is either still registered or was
      torn down exactly once; a registered one was torn down at most once, and not at all unless its plugin is
      being unregistered. */
  lemma TornDownOnce(steps: seq<Step>, id: string)
    requires Run(EMPTY, steps).Some? && id in Run(EMPTY, steps).value.seen
    ensures var s := Run(EMPTY, steps).value;
            && s.failed == {}
            && (id !in s.triggers ==> multiset(s.torn)[id] == 1)
            && (id in s.triggers ==> multiset(s.torn)[id] <= 1)
            && (id in s.triggers && Idle(s, s.seen[id]) ==> multiset(s.torn)[id] == 0)
  {
    EmptyInv();
    RunKeeps(EMPTY, steps);
    var s := Run(EMPTY, steps).value;
    IdIsTracked(s, id);
  }

  lemma IdIsTracked(s: State, id: string)
    requires Inv(s) && id in s.seen
    ensures id !in s.triggers ==> multiset(s.torn)[id] == 1
    ensures multiset(s.torn)[id] <= 1
    ensures id in s.triggers && Idle(s, s.seen[id]) ==> multiset(s.torn)[id] == 0
  {
    var ids := IdsOf(s.byPlugin, s.seen[id]);
    if id in ids {
      var j :| 0 <= j < |ids| && ids[j] == id;
      if !Idle(s, s.seen[id]) {
        var u :| u in s.running && s.running[u].plugin == s.seen[id];
        assert Progress(s, s.seen[id], s.running[u].i, Begun(s.running[u]));
        BegunMeansGone(s, u, j);
      } else {
        assert Progress(s, s.seen[id], 0, 0);
      }
    }
  }

  lemma BegunMeansGone(s: State, u: nat, j: nat)
    requires Inv(s) && u in s.running && j < |IdsOf(s.byPlugin, s.running[u].plugin)|
    ensures var id := IdsOf(s.byPlugin, s.running[u].plugin)[j];
            id !in s.triggers ==> multiset(s.torn)[id] == 1
  {
    assert Progress(s, s.running[u].plugin, s.running[u].i, Begun(s.running[u]));
  }

  /** When no teardown is under way, the two maps agree: the registered triggers are the disjoint union of the
      lists. */
  lemma QuietMapsAgree(steps: seq<Step>)
    requires Run(EMPTY, steps).Some? && Run(EMPTY, steps).value.running == map[]
    ensures Agree(Run(EMPTY, steps).value.triggers, Run(EMPTY, steps).value.byPlugin)
  {
    EmptyInv();
    RunKeeps(EMPTY, steps);
    IdleAgrees(Run(EMPTY, steps).value);
  }

  lemma IdleAgrees(s: State)
    requires Inv(s) && s.running == map[]
    ensures Agree(s.triggers, s.byPlugin)
  {
    forall p ensures Progress(s, p, 0, 0) { assert Idle(s, p); }
    forall id | id in s.triggers ensures id in IdsOf(s.byPlugin, s.triggers[id].plugin) {
      assert s.triggers[id].plugin == s.seen[id];
    }
    hide Teardowns;
    forall p, id | p in s.byPlugin && id in s.byPlugin[p] ensures id in s.triggers && s.triggers[id].plugin == p {
      ListedIsRegistered(s, p, id);
    }
    hide Progress, Ids;
  }

  lemma ListedIsRegistered(s: State, p: string, id: string)
    requires Lists(s) && Ids(s) && Progress(s, p, 0, 0) && p in s.byPlugin && id in s.byPlugin[p]
    ensures id in s.triggers && s.triggers[id].plugin == p
  {
    var ids := IdsOf(s.byPlugin, p);
    var j :| 0 <= j < |ids| && ids[j] == id;
    assert ids[j] in s.triggers;
  }

  /** When an unregistering finishes, every trigger its plugin ever registered, also while it was running, is gone
      and was torn down exactly once, whatever the teardowns raised. */
  lemma FinishedPluginIsGone(steps: seq<Step>, u: nat, id: string)
    requires Run(EMPTY, steps).Some? && Enabled(Run(EMPTY, steps).value, Finish(u))
    requires var s := Run(EMPTY, steps).value; id in s.seen && s.seen[id] == s.running[u].plugin
    ensures var s := Apply(Run(EMPTY, steps).value, Finish(u));
            id !in s.triggers && s.seen[id] !in s.byPlugin && multiset(s.torn)[id] == 1
  {
    EmptyInv();
    RunKeeps(EMPTY, steps);
    FinishKeeps(Run(EMPTY, steps).value, u);
  }

  // ---------- When a KeyError is raised ----------

  /** Any run, orderly or not. */
  function FreeRun(s: State, steps: seq<Step>): Option<State>
    decreases |steps|
  {
    if steps == [] then Some(s)
    else if !Enabled(s, steps[0]) then None
    else FreeRun(Apply(s, steps[0]), steps[1..])
  }

  /** `u` awaits the teardown of the trigger `id`. */
  predicate Awaits(s: State, u: nat, id: string) {
    && u in s.running && s.running[u].awaiting
    && s.running[u].i < |ListOf(s, s.running[u])| && ListOf(s, s.running[u])[s.running[u].i] == id
  }

  predicate IsStepOf(step: Step, u: nat) {
    match step
    case Registered(_) => false
    case RegisterFailed(_) => false
    case Begin(v, _) => v == u
    case Visit(v) => v == u
    case TornDown(v, _) => v == u
    case Finish(v) => v == u
  }

  /** The step ends an awaited teardown of the trigger and deletes it. */
  predicate Deletes(s: State, step: Step, id: string) {
    step.TornDown? && Awaits(s, step.u, id) && id in s.triggers
  }

  predicate IsRegistered(steps: seq<Step>, id: string) {
    exists i :: 0 <= i < |steps| && steps[i].Registered? && steps[i].t.id == id
  }

  /** Along the steps, an unregistering that awaits the same trigger comes back and deletes it, and it is not
      registered anew after that. */
  predicate DeletedMeanwhile(s: State, steps: seq<Step>, id: string)
    requires FreeRun(s, steps).Some?
    decreases |steps|
  {
    steps != [] &&
    ((Deletes(s, steps[0], id) && !IsRegistered(steps[1..], id)) || DeletedMeanwhile(Apply(s, steps[0]), steps[1..], id))
  }

  lemma AwaitingGoesOn(s: State, step: Step, u: nat, id: string)
    requires Awaits(s, u, id) && Enabled(s, step) && !IsStepOf(step, u)
    ensures Awaits(Apply(s, step), u, id) && (u in Apply(s, step).failed <==> u in s.failed)
  {
    var s' := Apply(s, step);
    assert ListOf(s, s.running[u]) <= ListOf(s', s'.running[u]);
  }

  lemma DeletionStep(s: State, step: Step, id: string)
    requires Enabled(s, step)
    ensures id in Apply(s, step).triggers <==>
              (step.Registered? && step.t.id == id) || (id in s.triggers && !Deletes(s, step, id))
  {
  }

  lemma RegisteredFirst(steps: seq<Step>, id: string)
    requires steps != []
    ensures IsRegistered(steps, id) <==> (steps[0].Registered? && steps[0].t.id == id) || IsRegistered(steps[1..], id)
  {
    if IsRegistered(steps[1..], id) {
      var i :| 0 <= i < |steps[1..]| && steps[1..][i].Registered? && steps[1..][i].t.id == id;
      assert steps[i + 1] == steps[1..][i];
    }
    assert forall i :: 0 < i < |steps| ==> steps[i] == steps[1..][i - 1];
  }

  lemma {:induction false} DeletedIff(s: State, steps: seq<Step>, id: string)
    requires FreeRun(s, steps).Some?
    ensures id !in FreeRun(s, steps).value.triggers <==>
              DeletedMeanwhile(s, steps, id) || (id !in s.triggers && !IsRegistered(steps, id))
    decreases |steps|
  {
    hide Apply, Awaits, Enabled, IsRegistered;
    if steps != [] {
      DeletionStep(s, steps[0], id);
      RegisteredFirst(steps, id);
      DeletedIff(Apply(s, steps[0]), steps[1..], id);
    } else {
      assert !IsRegistered(steps, id) by { NothingRegistered(id); }
    }
  }

  lemma NothingRegistered(id: string)
    ensures !IsRegistered([], id)
  {
  }

  lemma {:induction false} AwaitingKept(s: State, steps: seq<Step>, u: nat, id: string)
    requires FreeRun(s, steps).Some? && Awaits(s, u, id) && u !in s.failed
    requires forall i :: 0 <= i < |steps| ==> !IsStepOf(steps[i], u)
    ensures var e := FreeRun(s, steps).value; Awaits(e, u, id) && u !in e.failed
    decreases |steps|
  {
    hide Apply, Awaits, Enabled;
    if steps != [] {
      AwaitingGoesOn(s, steps[0], u, id);
      AwaitingKept(Apply(s, steps[0]), steps[1..], u, id);
    }
  }

  /** An unregistering that has called the teardown of a trigger ends in a KeyError when the teardown comes back
      exactly when, meanwhile, another unregistering awaiting the same trigger has come back first, and the
      trigger has not been registered anew since. This holds in any run, orderly or not. */
  lemma KeyErrorIff(s: State, u: nat, steps: seq<Step>, raised: bool)
    requires Enabled(s, Visit(u)) && u !in s.failed
    requires var id := ListOf(s, s.running[u])[s.running[u].i]; id in s.triggers
    requires FreeRun(Apply(s, Visit(u)), steps).Some?
    requires forall i :: 0 <= i < |steps| ==> !IsStepOf(steps[i], u)
    ensures var id := ListOf(s, s.running[u])[s.running[u].i];
            var e := FreeRun(Apply(s, Visit(u)), steps).value;
            && Enabled(e, TornDown(u, raised))
            && (u in Apply(e, TornDown(u, raised)).failed <==> DeletedMeanwhile(Apply(s, Visit(u)), steps, id))
  {
    var id := ListOf(s, s.running[u])[s.running[u].i];
    DeletedIff(Apply(s, Visit(u)), steps, id);
    AwaitingKept(Apply(s, Visit(u)), steps, u, id);
    hide DeletedMeanwhile, FreeRun;
  }

  /** So two concurrent unregisterings of one plugin tear its trigger down twice, and the later one ends in a
      KeyError. */
  lemma DoubleUnregisterBreaks(t: Trigger)
    ensures var s1 := Apply(EMPTY, Registered(t));
            var s2 := Apply(Apply(s1, Begin(0, t.plugin)), Begin(1, t.plugin));
            var s3 := Apply(Apply(s2, Visit(0)), Visit(1));
            var s4 := Apply(Apply(s3, TornDown(0, false)), TornDown(1, false));
            s3.torn == [t.id, t.id] && s4.failed == {1}
  {
    var s1 := Apply(EMPTY, Registered(t));
    var s2 := Apply(Apply(s1, Begin(0, t.plugin)), Begin(1, t.plugin));
    assert ListOf(s2, s2.running[0]) == [t.id] && ListOf(s2, s2.running[1]) == [t.id];
    var s3 := Apply(Apply(s2, Visit(0)), Visit(1));
    assert s3.running[0] == Unregister(t.plugin, 0, true, None) && s3.running[1] == Unregister(t.plugin, 0, true, None);
    var s4 := Apply(s3, TornDown(0, false));
    assert t.id !in s4.triggers;
  }

  /** And a repeated id, whose second registration is not refused, makes agreeing maps disagree, always. */
  lemma RegisteringAgreesIff(steps: seq<Step>, t: Trigger)
    requires Run(EMPTY, steps).Some? && Run(EMPTY, steps).value.running == map[]
    ensures var s := Run(EMPTY, steps).value;
            var s' := Apply(s, Registered(t));
            Agree(s'.triggers, s'.byPlugin) <==> t.id !in s.triggers
  {
    QuietMapsAgree(steps);
    EnteringAgreesIff(Run(EMPTY, steps).value.triggers, Run(EMPTY, steps).value.byPlugin, t);
  }
}
