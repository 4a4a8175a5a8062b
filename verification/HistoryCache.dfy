/** The caching reads of core/history_client.py: every answer is a backend answer to the same resolved
    request, recent enough, and newer than the last invalidation. */
module HistoryCache {
  import opened Text
  import opened Evaluator

  type Payload = seq<Value>

  /** An alias's metadata, as far as lookups use it. */
  datatype AliasMeta = AliasMeta(uuid: Option<string>)

  type Aliases = map<string, AliasMeta>

  /** What callers ask, and what is sent to the backend and used as cache key. */
  datatype Query = ListMessages(peer: string, limit: int, since: int) | GetRound(peer: string, round: int) | ListPeers

  datatype Request = ListRequest(target: string, limit: int, since: int) | GetRequest(target: string, round: int) | PeersRequest

  /** `Unknown` is the peer_not_found diagnostic, `Broken` the KeyError of an alias without a uuid. */
  datatype Resolution = Target(target: string) | Unknown | Broken

  datatype Stamped = Stamped(time: int, value: Payload)

  /** One answer of the backend, stamped with the time it was stored. */
  datatype Response = Response(request: Request, time: int, value: Payload)

  /** The client's tables, with the history of backend answers and how many there were when the cache was
      last cleared. */
  datatype Client = Client(cache: map<Request, Stamped>, aliases: Aliases, log: seq<Response>, cleared: nat)

  datatype Reply = Found(value: Payload) | PeerNotFound | AliasBroken | RpcFailed

  predicate IsSomeUuid(aliases: Aliases, peer: string) {
    exists name :: name in aliases && aliases[name].uuid == Some(peer)
  }

  /** `_resolve_alias`. */
  function Resolve(aliases: Aliases, peer: string): Resolution {
    if aliases == map[] then Target(peer)
    else if peer in aliases then
      (match aliases[peer].uuid
       case Some(uuid) => Target(uuid)
       case None => Broken)
    else if IsSomeUuid(aliases, peer) then Target(peer)
    else Unknown
  }

  function ResolutionOf(aliases: Aliases, q: Query): Resolution {
    match q
    case ListMessages(peer, _, _) => Resolve(aliases, peer)
    case GetRound(peer, _) => Resolve(aliases, peer)
    case ListPeers => Target("")
  }

  function RequestFor(q: Query, target: string): Request {
    match q
    case ListMessages(_, limit, since) => ListRequest(target, limit, since)
    case GetRound(_, round) => GetRequest(target, round)
    case ListPeers => PeersRequest
  }

  predicate IsFresh(c: Client, request: Request, now: int, ttl: int) {
    request in c.cache && now - c.cache[request].time <= ttl
  }

  /** One read: the cache while it is fresh, else the backend. `answer` is what the backend says if it is
      asked, `done` the time when its answer is stored. */
  function Read(c: Client, ttl: int, q: Query, now: int, answer: Option<Payload>, done: int): (Client, Reply) {
    match ResolutionOf(c.aliases, q)
    case Unknown => (c, PeerNotFound)
    case Broken => (c, AliasBroken)
    case Target(target) =>
      var request := RequestFor(q, target);
      if IsFresh(c, request, now, ttl) then (c, Found(c.cache[request].value))
      else
        var expired := c.(cache := c.cache - {request});
        match answer
        case None => (expired, RpcFailed)
        case Some(value) =>
          (expired.(cache := expired.cache[request := Stamped(done, value)], log := c.log + [Response(request, done, value)]),
           Found(value))
  }

  function Clear(c: Client): Client {
    c.(cache := map[], cleared := |c.log|)
  }

  // ---------- The client object ----------

  class HistoryClient {
    const ttl: int
    var cache: map<Request, Stamped>
    var aliases: Aliases
    ghost var log: seq<Response>
    ghost var cleared: nat

    ghost function State(): Client
      reads this
    {
      Client(cache, aliases, log, cleared)
    }

    constructor (ttl: int)
      ensures this.ttl == ttl && State() == Client(map[], map[], [], 0)
    {
      this.ttl := ttl;
      cache, aliases := map[], map[];
      log, cleared := [], 0;
    }

    method SetAliases(table: Aliases)
      modifies this
      ensures State() == Clear(old(State()).(aliases := table))
    {
      aliases := table;
      cache := map[];
      cleared := |log|;
    }

    method Invalidate()
      modifies this
      ensures State() == Clear(old(State()))
    {
      cache := map[];
      cleared := |log|;
    }

    method ResolveAlias(peer: string) returns (r: Resolution)
      ensures r == Resolve(aliases, peer)
    {
      if aliases == map[] {
        return Target(peer);
      }
      if peer !in aliases {
        var left := aliases.Keys;
        while left != {}
          invariant left <= aliases.Keys
          invariant forall name :: name in aliases && name !in left ==> aliases[name].uuid != Some(peer)
          decreases left
        {
          var name :| name in left;
          left := left - {name};
          if aliases[name].uuid == Some(peer) {
            return Target(peer);
          }
        }
        return Unknown;
      }
      var uuid := aliases[peer].uuid;
      return if uuid.Some? then Target(uuid.value) else Broken;
    }

    /** `_get_cached`: an expired entry is deleted. */
    method GetCached(request: Request, now: int) returns (r: Option<Payload>)
      modifies `cache
      ensures var hit := IsFresh(old(State()), request, now, ttl);
              && r == (if hit then Some(old(cache)[request].value) else None)
              && cache == (if hit then old(cache) else old(cache) - {request})
    {
      if request !in cache {
        return None;
      }
      var entry := cache[request];
      if now - entry.time > ttl {
        cache := cache - {request};
        return None;
      }
      return Some(entry.value);
    }

    method SetCached(request: Request, value: Payload, now: int)
      modifies `cache
      ensures cache == old(cache)[request := Stamped(now, value)]
    {
      cache := cache[request := Stamped(now, value)];
    }

    /** `list_messages`, `get_round` and the cached part of `list_peers`: one shape, three requests. For
        `ListPeers` the answer is what the paging loop makes of its pages, which it always makes. */
    method Ask(q: Query, now: int, answer: Option<Payload>, done: int) returns (reply: Reply)
      modifies this
      ensures (State(), reply) == Read(old(State()), ttl, q, now, answer, done)
    {
      var resolution := Target("");
      match q {
        case ListMessages(peer, _, _) => resolution := ResolveAlias(peer);
        case GetRound(peer, _) => resolution := ResolveAlias(peer);
        case ListPeers =>
      }
      if resolution.Unknown? {
        return PeerNotFound;
      }
      if resolution.Broken? {
        return AliasBroken;
      }
      var request := RequestFor(q, resolution.target);
      var cached := GetCached(request, now);
      if cached.Some? {
        return Found(cached.value);
      }
      if answer.None? {
        return RpcFailed;
      }
      log := log + [Response(request, done, answer.value)];
      SetCached(request, answer.value, done);
      return Found(answer.value);
    }
  }

  // ---------- Where answers come from ----------

  /** The `j`-th backend answer is one to this request, with this value. */
  predicate Answers(c: Client, j: nat, request: Request, value: Payload) {
    j < |c.log| && c.log[j].request == request && c.log[j].value == value
  }

  /** Every entry is a backend answer to its own key, stored at its time, after the last clearing. */
  ghost predicate Faithful(c: Client) {
    && c.cleared <= |c.log|
    && forall request :: request in c.cache ==>
         exists j: nat :: c.cleared <= j && Answers(c, j, request, c.cache[request].value) && c.log[j].time == c.cache[request].time
  }

  datatype Op =
    | Asked(q: Query, now: int, answer: Option<Payload>, done: int)
    | Invalidated
    | AliasesSet(aliases: Aliases)

  function After(c: Client, ttl: int, op: Op): Client {
    match op
    case Asked(q, now, answer, done) => Read(c, ttl, q, now, answer, done).0
    case Invalidated => Clear(c)
    case AliasesSet(aliases) => Clear(c.(aliases := aliases))
  }

  function AfterAll(c: Client, ttl: int, ops: seq<Op>): Client
    decreases |ops|
  {
    if ops == [] then c else AfterAll(After(c, ttl, ops[0]), ttl, ops[1..])
  }

  lemma ReadIsFaithful(c: Client, ttl: int, q: Query, now: int, answer: Option<Payload>, done: int)
    requires Faithful(c)
    ensures Faithful(Read(c, ttl, q, now, answer, done).0)
  {
    hide Resolve;
    var c' := Read(c, ttl, q, now, answer, done).0;
    forall request | request in c'.cache
      ensures exists j: nat :: c'.cleared <= j && Answers(c', j, request, c'.cache[request].value)
                && c'.log[j].time == c'.cache[request].time
    {
      if request in c.cache && c'.cache[request] == c.cache[request] {
        var j: nat :| c.cleared <= j && Answers(c, j, request, c.cache[request].value) && c.log[j].time == c.cache[request].time;
        assert Answers(c', j, request, c'.cache[request].value);
      } else {
        assert Answers(c', |c.log|, request, c'.cache[request].value);
      }
    }
  }

  /** Along any sequence of reads, invalidations and alias changes the cache stays faithful, backend answers
      are only added, and the point of the last clearing only moves forward. */
  lemma {:induction false} StaysFaithful(c: Client, ttl: int, ops: seq<Op>)
    requires Faithful(c)
    ensures var end := AfterAll(c, ttl, ops);
            Faithful(end) && c.log <= end.log && c.cleared <= end.cleared
    decreases |ops|
  {
    hide Resolve;
    if ops != [] {
      if ops[0].Asked? {
        ReadIsFaithful(c, ttl, ops[0].q, ops[0].now, ops[0].answer, ops[0].done);
      }
      StaysFaithful(After(c, ttl, ops[0]), ttl, ops[1..]);
    }
  }

  /** What a read returns is what the backend answered to the same request for the resolved peer, stored no
      more than `ttl` ago, after the cache was last cleared. */
  lemma ReadIsGenuine(c: Client, ttl: nat, q: Query, now: int, answer: Option<Payload>, done: int) returns (j: nat)
    requires Faithful(c) && now <= done
    requires Read(c, ttl, q, now, answer, done).1.Found?
    ensures var (c', reply) := Read(c, ttl, q, now, answer, done);
            && ResolutionOf(c.aliases, q).Target?
            && Answers(c', j, RequestFor(q, ResolutionOf(c.aliases, q).target), reply.value)
            && c.cleared <= j && now - c'.log[j].time <= ttl
  {
    hide Resolve;
    var request := RequestFor(q, ResolutionOf(c.aliases, q).target);
    if IsFresh(c, request, now, ttl) {
      j :| c.cleared <= j && Answers(c, j, request, c.cache[request].value) && c.log[j].time == c.cache[request].time;
    } else {
      j := |c.log|;
    }
  }

  lemma {:induction false} AfterAllConcat(c: Client, ttl: int, a: seq<Op>, b: seq<Op>)
    ensures AfterAll(c, ttl, a + b) == AfterAll(AfterAll(c, ttl, a), ttl, b)
    decreases |a|
  {
    if a == [] {
      assert a + b == b;
    } else {
      assert (a + b)[0] == a[0] && (a + b)[1..] == a[1..] + b;
      AfterAllConcat(After(c, ttl, a[0]), ttl, a[1..], b);
    }
  }

  /** A tracked transition invalidates the cache when its trigger is received. Whatever happens to the client
      between that and a guard's read - other transitions, other reads, alias changes - the read returns an
      answer that the backend gave after the trigger was received. */
  lemma ReadAfterTriggerIsNew(c: Client, ttl: nat, before: seq<Op>, between: seq<Op>, q: Query, now: int,
                              answer: Option<Payload>, done: int) returns (j: nat)
    requires Faithful(c) && now <= done
    requires Read(AfterAll(c, ttl, before + [Invalidated] + between), ttl, q, now, answer, done).1.Found?
    ensures var received := AfterAll(c, ttl, before);
            var c0 := AfterAll(c, ttl, before + [Invalidated] + between);
            var (c', reply) := Read(c0, ttl, q, now, answer, done);
            && |received.log| <= j
            && Answers(c', j, RequestFor(q, ResolutionOf(c0.aliases, q).target), reply.value)
  {
    hide Resolve, Read, RequestFor;
    var received := AfterAll(c, ttl, before);
    AfterAllConcat(c, ttl, before, [Invalidated] + between);
    assert before + [Invalidated] + between == before + ([Invalidated] + between);
    assert ([Invalidated] + between)[1..] == between;
    StaysFaithful(c, ttl, before);
    StaysFaithful(Clear(received), ttl, between);
    j := ReadIsGenuine(AfterAll(c, ttl, before + [Invalidated] + between), ttl, q, now, answer, done);
  }

  /** Two queries are answered from the same cache entry. */
  predicate SameEntry(aliases: Aliases, p: Query, q: Query) {
    var a, b := ResolutionOf(aliases, p), ResolutionOf(aliases, q);
    a.Target? && b.Target? && RequestFor(p, a.target) == RequestFor(q, b.target)
  }

  /** An alias and its uuid share their cache entries exactly when the uuid is not itself the name of an alias
      for something else. */
  lemma AliasSharesEntries(aliases: Aliases, alias: string, uuid: string, limit: int, since: int, round: int)
    requires alias in aliases && aliases[alias].uuid == Some(uuid)
    ensures SameEntry(aliases, ListMessages(alias, limit, since), ListMessages(uuid, limit, since))
            <==> uuid !in aliases || aliases[uuid].uuid == Some(uuid)
    ensures SameEntry(aliases, GetRound(alias, round), GetRound(uuid, round))
            <==> uuid !in aliases || aliases[uuid].uuid == Some(uuid)
  {
    assert IsSomeUuid(aliases, uuid);
  }

  // ---------- What is asked ----------

  /** Without aliases every name is asked as it is; with aliases an alias is asked by its uuid, a uuid of an alias as
      it is, and anything else is unknown; an alias without a uuid is broken. */
  lemma ResolveNames(aliases: Aliases, peer: string)
    ensures aliases == map[] ==> Resolve(aliases, peer) == Target(peer)
    ensures forall uuid :: peer in aliases && aliases[peer] == AliasMeta(Some(uuid)) ==> Resolve(aliases, peer) == Target(uuid)
    ensures peer in aliases && aliases[peer] == AliasMeta(None) ==> Resolve(aliases, peer) == Broken
    ensures forall name :: peer !in aliases && name in aliases && aliases[name] == AliasMeta(Some(peer)) ==>
              Resolve(aliases, peer) == Target(peer)
    ensures Resolve(aliases, peer) == Unknown <==>
              aliases != map[] && peer !in aliases && forall name :: name in aliases ==> aliases[name] != AliasMeta(Some(peer))
  {
  }

  /** A request says what its query asks, of the resolved peer; and two queries share a request only when they ask
      the same of the same peer. */
  lemma RequestsDiffer(p: Query, q: Query, x: string, y: string)
    requires RequestFor(p, x) == RequestFor(q, y)
    ensures p.ListMessages? ==> RequestFor(p, x) == ListRequest(x, p.limit, p.since)
    ensures p.GetRound? ==> RequestFor(p, x) == GetRequest(x, p.round)
    ensures p.ListMessages? ==> q.ListMessages? && x == y && p.limit == q.limit && p.since == q.since
    ensures p.GetRound? ==> q.GetRound? && x == y && p.round == q.round
    ensures p.ListPeers? ==> q.ListPeers?
  {
  }

  /** An answer from the backend is reused for as long as the ttl and no longer: asking again within it gives the same
      answer and asks nobody, asking later gives whatever the backend says then. */
  lemma AnswersAreReused(c: Client, ttl: nat, q: Query, now: int, value: Payload, done: int, later: int, other: Option<Payload>, stored: int)
    requires Read(c, ttl, q, now, Some(value), done).0.log != c.log
    ensures var once := Read(c, ttl, q, now, Some(value), done);
            var again := Read(once.0, ttl, q, later, other, stored);
            && once.1 == Found(value)
            && (later - done <= ttl ==> again == (once.0, Found(value)))
            && (later - done > ttl ==> again.1 == match other case Some(v) => Found(v) case None => RpcFailed)
  {
    hide Resolve;
  }
}
