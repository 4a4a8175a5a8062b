/** The `peers` namespace of core/history_proxy.py: how a name in an expression becomes a peer, and how its
    history is asked for a text. */
module PeerProxy {
  import opened Text
  import opened Evaluator
  import opened Poller
  import opened HistoryCache
  import opened Inbound

  /** What is known of a peer: its name, its uuid if any, its last round. */
  datatype PeerMeta = PeerMeta(name: string, uuid: Option<string>, lastRound: int)

  function MetaOf(row: PeerRow): PeerMeta {
    PeerMeta(row.name, Some(row.uuid), row.lastRound)
  }

  // ---------- Refreshing the namespace ----------

  /** The listed peers by name; a later row replaces an earlier one of the same name. */
  function FromRows(rows: seq<PeerRow>): map<string, PeerMeta> {
    if rows == [] then map[]
    else FromRows(rows[..|rows| - 1])[KeyOf(rows[|rows| - 1]) := MetaOf(rows[|rows| - 1])]
  }

  /** The first listed peer with this uuid; the number of rows when there is none. */
  function FirstWith(rows: seq<PeerRow>, uuid: string): (i: nat)
    ensures i <= |rows|
    ensures forall j :: 0 <= j < i ==> rows[j].uuid != uuid
    ensures i < |rows| ==> rows[i].uuid == uuid
  {
    if rows == [] || rows[0].uuid == uuid then 0 else 1 + FirstWith(rows[1..], uuid)
  }

  /** An alias inherits the listed peer with its uuid, and is made up otherwise; it keeps its own name. */
  function AliasPeer(rows: seq<PeerRow>, name: string, uuid: Option<string>): PeerMeta {
    if uuid.Some? && uuid.value != "" && FirstWith(rows, uuid.value) < |rows|
    then MetaOf(rows[FirstWith(rows, uuid.value)]).(name := name)
    else PeerMeta(name, uuid, 0)
  }

  /** The aliases that are not left, over the listed peers. */
  function WithAliases(rows: seq<PeerRow>, aliases: Aliases, left: set<string>): map<string, PeerMeta> {
    FromRows(rows) + map a | a in aliases && a !in left :: AliasPeer(rows, a, aliases[a].uuid)
  }

  function ByName(rows: seq<PeerRow>, aliases: Aliases): map<string, PeerMeta> {
    WithAliases(rows, aliases, {})
  }

  lemma OneMoreAlias(rows: seq<PeerRow>, aliases: Aliases, left: set<string>, name: string)
    requires name in left && name in aliases
    ensures WithAliases(rows, aliases, left)[name := AliasPeer(rows, name, aliases[name].uuid)] == WithAliases(rows, aliases, left - {name})
  {
    hide AliasPeer, FromRows;
  }

  lemma NoAliases(rows: seq<PeerRow>, aliases: Aliases)
    ensures WithAliases(rows, aliases, aliases.Keys) == FromRows(rows)
  {
    hide AliasPeer, FromRows;
  }

  class PeersNamespace {
    var snapshot: seq<PeerRow>
    var byName: map<string, PeerMeta>

    constructor ()
      ensures snapshot == [] && byName == map[]
    {
      snapshot, byName := [], map[];
    }

    /** `refresh`: the listed peers first, then every alias over them; without a client nothing. */
    method Refresh(listed: Option<seq<PeerRow>>, aliases: Aliases)
      modifies this
      ensures listed.None? ==> snapshot == old(snapshot) && byName == old(byName)
      ensures listed.Some? ==> snapshot == listed.value && byName == ByName(listed.value, aliases)
    {
      if listed.None? {
        return;
      }
      snapshot := listed.value;
      byName := map[];
      var i := 0;
      while i < |snapshot|
        invariant 0 <= i <= |snapshot| && snapshot == listed.value
        invariant byName == FromRows(snapshot[..i])
      {
        assert snapshot[..i + 1][..i] == snapshot[..i];
        byName := byName[KeyOf(snapshot[i]) := MetaOf(snapshot[i])];
        i := i + 1;
      }
      assert snapshot[..i] == snapshot;
      NoAliases(snapshot, aliases);
      hide AliasPeer, FromRows, WithAliases, FirstWith;
      var left := aliases.Keys;
      while left != {}
        invariant left <= aliases.Keys && snapshot == listed.value
        invariant byName == WithAliases(snapshot, aliases, left)
        decreases left
      {
        var name :| name in left;
        OneMoreAlias(snapshot, aliases, left, name);
        left := left - {name};
        var meta := AliasMetaOf(name, aliases[name].uuid);
        byName := byName[name := meta];
      }
    }

    /** The search for the listed peer an alias points at. */
    method AliasMetaOf(name: string, uuid: Option<string>) returns (meta: PeerMeta)
      ensures meta == AliasPeer(snapshot, name, uuid)
    {
      var i := 0;
      while i < |snapshot|
        invariant 0 <= i <= |snapshot|
        invariant uuid.Some? && uuid.value != "" ==> forall j :: 0 <= j < i ==> snapshot[j].uuid != uuid.value
      {
        if uuid.Some? && uuid.value != "" && snapshot[i].uuid == uuid.value {
          return MetaOf(snapshot[i]).(name := name);
        }
        i := i + 1;
      }
      return PeerMeta(name, uuid, 0);
    }
  }

  /** A name that is no alias is known exactly when a listed peer has it, and is the last such peer. */
  lemma {:induction false} ListedByName(rows: seq<PeerRow>, name: string)
    ensures name in FromRows(rows) <==> exists i :: 0 <= i < |rows| && KeyOf(rows[i]) == name
    ensures forall i :: 0 <= i < |rows| && KeyOf(rows[i]) == name && (forall j :: i < j < |rows| ==> KeyOf(rows[j]) != name) ==>
              FromRows(rows)[name] == PeerMeta(rows[i].name, Some(rows[i].uuid), rows[i].lastRound)
  {
    hide KeyOf;
    if rows != [] {
      ListedByName(rows[..|rows| - 1], name);
    }
  }

  // ---------- Asking a peer's history ----------

  const WINDOW: int := 5

  /** What the history of a peer is asked by: its uuid, or its name when it has none. */
  function AskedBy(m: PeerMeta): string {
    if m.uuid.Some? && m.uuid.value != "" then m.uuid.value else m.name
  }

  function HistoryQuery(m: PeerMeta): Query {
    ListMessages(AskedBy(m), WINDOW, 0)
  }

  /** An alias with a uuid is asked by that uuid whether or not the peer is listed, and the backend is asked for
      the same uuid unless it names another alias. */
  lemma AliasAskedByUuid(rows: seq<PeerRow>, aliases: Aliases, alias: string, uuid: string)
    requires alias in aliases && aliases[alias].uuid == Some(uuid) && uuid != ""
    ensures alias in ByName(rows, aliases) && HistoryQuery(ByName(rows, aliases)[alias]) == ListMessages(uuid, 5, 0)
    ensures ResolutionOf(aliases, HistoryQuery(ByName(rows, aliases)[alias])) == Target(uuid)
            <==> uuid !in aliases || aliases[uuid].uuid == Some(uuid)
    ensures RequestFor(HistoryQuery(ByName(rows, aliases)[alias]), uuid) == ListRequest(uuid, 5, 0)
  {
    assert IsSomeUuid(aliases, uuid);
  }

  /** An alias has its own name and uuid, and the last round of the first listed peer with that uuid, 0 when no listed
      peer has it; without a uuid it is asked by its name. */
  lemma AliasInherits(rows: seq<PeerRow>, aliases: Aliases, alias: string, i: nat)
    requires alias in aliases
    ensures var m := ByName(rows, aliases)[alias];
            && m.name == alias && m.uuid == aliases[alias].uuid
            && (aliases[alias].uuid.None? || aliases[alias].uuid == Some("") ==> m.lastRound == 0 && AskedBy(m) == alias)
            && (IsFirstWith(rows, aliases[alias].uuid, i) ==> m.lastRound == rows[i].lastRound)
            && ((forall j :: 0 <= j < |rows| ==> Some(rows[j].uuid) != aliases[alias].uuid) ==> m.lastRound == 0)
  {
  }

  /** The first row with this uuid, which is not empty. */
  predicate IsFirstWith(rows: seq<PeerRow>, uuid: Option<string>, i: nat) {
    && i < |rows| && uuid.Some? && uuid.value != "" && rows[i].uuid == uuid.value
    && forall j :: 0 <= j < i ==> rows[j].uuid != uuid.value
  }

  function PartValue(p: Part): Value {
    Dict(if p.text.Some? then map["type" := Str(p.kind), "text" := Str(p.text.value)] else map["type" := Str(p.kind)])
  }

  function PartValues(ps: seq<Part>): seq<Value> {
    if ps == [] then [] else [PartValue(ps[0])] + PartValues(ps[1..])
  }

  function MessageValue(m: Message): Value {
    Dict(map["role" := Str(m.role), "parts" := List(PartValues(m.parts))])
  }

  /** Messages as the backend answers them. */
  function MessageValues(ms: seq<Message>): Payload {
    if ms == [] then [] else [MessageValue(ms[0])] + MessageValues(ms[1..])
  }

  lemma {:induction false} PartValuesDiffer(a: seq<Part>, b: seq<Part>)
    requires PartValues(a) == PartValues(b)
    ensures a == b
  {
    if a != [] && b != [] {
      assert PartValues(a)[0] == PartValues(b)[0] && PartValues(a)[1..] == PartValues(b)[1..];
      PartValuesDiffer(a[1..], b[1..]);
      var x, y := PartValue(a[0]).entries, PartValue(b[0]).entries;
      assert x["type"] == y["type"] && ("text" in x <==> "text" in y) && ("text" in x ==> x["text"] == y["text"]);
      assert a == [a[0]] + a[1..] && b == [b[0]] + b[1..];
    }
  }

  /** The messages can be read off the payload. */
  lemma {:induction false} MessageValuesDiffer(a: seq<Message>, b: seq<Message>)
    requires MessageValues(a) == MessageValues(b)
    ensures a == b
  {
    if a != [] && b != [] {
      assert MessageValues(a)[0] == MessageValues(b)[0] && MessageValues(a)[1..] == MessageValues(b)[1..];
      MessageValuesDiffer(a[1..], b[1..]);
      var x, y := MessageValue(a[0]).entries, MessageValue(b[0]).entries;
      assert x["role"] == y["role"] && x["parts"] == y["parts"];
      PartValuesDiffer(a[0].parts, b[0].parts);
      assert a == [a[0]] + a[1..] && b == [b[0]] + b[1..];
    }
  }

  /** What `last_inbound_contains` comes to for the expression that calls it: `meta` is the peer, if the name is
      one, and `reply` what its history client answers; a found payload holds `messages`. */
  function ScanOutcome(meta: Option<PeerMeta>, reply: Reply, messages: seq<Message>, needle: string): CallOutcome {
    if meta.None? then RaisedReason("peer_not_found") else
    match reply
    case PeerNotFound => RaisedReason("peer_not_found")
    case AliasBroken => RaisedOther
    case RpcFailed => RaisedOther
    case Found(_) =>
      match ContainsSpec(Recent(messages), needle)
      case PeerNotFound => RaisedReason("peer_not_found")
      case HistoryEmpty => RaisedReason("history_empty")
      case Answer(b) => Returned(Bool(b))
  }

  /** The call returns a true value exactly when the client has an answer and an inbound text part of it contains
      the needle. */
  lemma ScanIsTrueIff(meta: Option<PeerMeta>, reply: Reply, messages: seq<Message>, needle: string)
    ensures ScanOutcome(meta, reply, messages, needle) == Returned(Bool(true)) <==>
              meta.Some? && reply.Found? && SomeContains(InboundTexts(messages, |messages|), needle)
  {
    hide SomeContains;
    if messages == [] {
      assert !SomeContains(InboundTexts(messages, |messages|), needle) by { NothingContains(needle); }
    }
  }

  lemma NothingContains(needle: string)
    ensures !SomeContains(InboundTexts([], 0), needle)
  {
  }
}
