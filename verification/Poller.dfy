/** The history poller of core/trigger_impl.py: it turns observed round numbers into events, one
    contiguous chain of intervals for each peer. */
module Poller {
  import opened Text
  import opened Evaluator
  import opened Chart
  import opened ActionFacts

  /** One row of `list_peers`. */
  datatype PeerRow = PeerRow(name: string, uuid: string, lastRound: int)

  datatype Poll = PollFailed | Rows(rows: seq<PeerRow>)

  datatype Fired = Fired(peer: string, prevRound: int, newRound: int, count: int)

  /** What a trigger watches: `*`, a key, or an alias with the uuid it stands for. */
  datatype Watch = Watch(peer: string, aliases: map<string, string>)

  function KeyOf(p: PeerRow): string {
    if p.name != "" then p.name else p.uuid
  }

  function Short(uuid: string): string {
    if |uuid| > 8 then uuid[..8] else uuid
  }

  predicate Matches(w: Watch, key: string) {
    || w.peer == "*"
    || key == w.peer
    || (w.peer in w.aliases && w.aliases[w.peer] != "" && (key == w.aliases[w.peer] || key == Short(w.aliases[w.peer])))
  }

  /** The snapshot of last rounds, and the events fired so far. */
  datatype Tracker = Tracker(snapshot: map<string, int>, fired: seq<Fired>)

  function RoundOf(snapshot: map<string, int>, key: string): int {
    if key in snapshot then snapshot[key] else 0
  }

  function TakeRow(w: Watch, snapshot: map<string, int>, row: PeerRow): map<string, int> {
    if Matches(w, KeyOf(row)) then snapshot[KeyOf(row) := row.lastRound] else snapshot
  }

  /** The first poll only records. */
  function TakeRows(w: Watch, snapshot: map<string, int>, rows: seq<PeerRow>): map<string, int> {
    if rows == [] then snapshot
    else TakeRow(w, TakeRows(w, snapshot, rows[..|rows| - 1]), rows[|rows| - 1])
  }

  /** A later row fires when the round has grown since the snapshot, and only then updates it. */
  function SeeRow(w: Watch, t: Tracker, row: PeerRow): Tracker {
    var key := KeyOf(row);
    var prev := RoundOf(t.snapshot, key);
    if !Matches(w, key) || row.lastRound <= prev then t
    else Tracker(t.snapshot[key := row.lastRound], t.fired + [Fired(key, prev, row.lastRound, row.lastRound - prev)])
  }

  function SeeRows(w: Watch, t: Tracker, rows: seq<PeerRow>): Tracker {
    if rows == [] then t else SeeRow(w, SeeRows(w, t, rows[..|rows| - 1]), rows[|rows| - 1])
  }

  /** The rows of the polls that succeeded, in order. */
  function Observed(polls: seq<Poll>): seq<PeerRow> {
    if polls == [] then []
    else Observed(polls[..|polls| - 1]) + (if polls[|polls| - 1].Rows? then polls[|polls| - 1].rows else [])
  }

  // ---------- The trigger object ----------

  class HistoryChangeTrigger {
    const watch: Watch
    var lastSnapshot: map<string, int>
    var fired: seq<Fired>

    constructor (watch: Watch)
      ensures this.watch == watch && lastSnapshot == map[] && fired == []
    {
      this.watch := watch;
      lastSnapshot, fired := map[], [];
    }

    /** `_peer_matches`: the alias table is searched entry by entry. */
    method PeerMatches(key: string) returns (r: bool)
      ensures r == Matches(watch, key)
    {
      if watch.peer == "*" {
        return true;
      }
      if key == watch.peer {
        return true;
      }
      var left := watch.aliases.Keys;
      while left != {}
        invariant left <= watch.aliases.Keys
        invariant watch.peer in watch.aliases && watch.peer !in left ==> !Matches(watch, key)
        decreases left
      {
        var name :| name in left;
        left := left - {name};
        if name != watch.peer {
          continue;
        }
        var uuid := watch.aliases[name];
        if uuid == "" {
          continue;
        }
        if key == uuid || key == Short(uuid) {
          return true;
        }
      }
      return false;
    }

    method InitialSnapshot(poll: Poll)
      modifies `lastSnapshot
      ensures lastSnapshot == if poll.Rows? then TakeRows(watch, old(lastSnapshot), poll.rows) else old(lastSnapshot)
    {
      if poll.PollFailed? {
        return;
      }
      var i := 0;
      while i < |poll.rows|
        invariant 0 <= i <= |poll.rows|
        invariant lastSnapshot == TakeRows(watch, old(lastSnapshot), poll.rows[..i])
      {
        assert poll.rows[..i + 1][..i] == poll.rows[..i];
        var key := KeyOf(poll.rows[i]);
        var matched := PeerMatches(key);
        if matched {
          lastSnapshot := lastSnapshot[key := poll.rows[i].lastRound];
        }
        i := i + 1;
      }
      assert poll.rows[..i] == poll.rows;
    }

    /** What the loop does with one row; the fire that it awaits swallows every exception. */
    method See(row: PeerRow)
      modifies `lastSnapshot, `fired
      ensures Tracker(lastSnapshot, fired) == SeeRow(watch, Tracker(old(lastSnapshot), old(fired)), row)
    {
      hide Matches, KeyOf;
      var key := KeyOf(row);
      var matched := PeerMatches(key);
      if !matched {
        return;
      }
      var last := row.lastRound;
      var prev := if key in lastSnapshot then lastSnapshot[key] else 0;
      if last > prev {
        fired := fired + [Fired(key, prev, last, last - prev)];
        lastSnapshot := lastSnapshot[key := last];
      }
    }

    /** One turn of the polling loop. */
    method PollOnce(poll: Poll)
      modifies `lastSnapshot, `fired
      ensures Tracker(lastSnapshot, fired) ==
                SeeRows(watch, Tracker(old(lastSnapshot), old(fired)), if poll.Rows? then poll.rows else [])
    {
      hide SeeRow;
      if poll.PollFailed? {
        return;
      }
      var i := 0;
      while i < |poll.rows|
        invariant 0 <= i <= |poll.rows|
        invariant Tracker(lastSnapshot, fired) == SeeRows(watch, Tracker(old(lastSnapshot), old(fired)), poll.rows[..i])
      {
        SeeRowsNext(watch, Tracker(old(lastSnapshot), old(fired)), poll.rows, i);
        See(poll.rows[i]);
        i := i + 1;
      }
      assert poll.rows[..i] == poll.rows;
    }

    /** `_poll_loop`, up to the poll after which it is cancelled. */
    method PollLoop(initial: Poll, polls: seq<Poll>)
      modifies this
      ensures var start := if initial.Rows? then TakeRows(watch, old(lastSnapshot), initial.rows) else old(lastSnapshot);
              Tracker(lastSnapshot, fired) == SeeRows(watch, Tracker(start, old(fired)), Observed(polls))
    {
      InitialSnapshot(initial);
      ghost var start := Tracker(lastSnapshot, fired);
      var i := 0;
      while i < |polls|
        invariant 0 <= i <= |polls|
        invariant Tracker(lastSnapshot, fired) == SeeRows(watch, start, Observed(polls[..i]))
      {
        assert polls[..i + 1][..i] == polls[..i];
        SeeRowsTwice(watch, start, Observed(polls[..i]), if polls[i].Rows? then polls[i].rows else []);
        PollOnce(polls[i]);
        i := i + 1;
      }
      assert polls[..i] == polls;
    }
  }

  lemma SeeRowsNext(w: Watch, t: Tracker, rows: seq<PeerRow>, i: nat)
    requires i < |rows|
    ensures SeeRows(w, t, rows[..i + 1]) == SeeRow(w, SeeRows(w, t, rows[..i]), rows[i])
  {
    assert rows[..i + 1][..i] == rows[..i];
  }

  lemma {:induction false} SeeRowsTwice(w: Watch, t: Tracker, a: seq<PeerRow>, b: seq<PeerRow>)
    ensures SeeRows(w, SeeRows(w, t, a), b) == SeeRows(w, t, a + b)
  {
    if b == [] {
      assert a + b == a;
    } else {
      assert (a + b)[..|a + b| - 1] == a + b[..|b| - 1];
      SeeRowsTwice(w, t, a, b[..|b| - 1]);
    }
  }

  predicate IsLastRow(rows: seq<PeerRow>, i: int, key: string) {
    0 <= i < |rows| && KeyOf(rows[i]) == key && forall j :: i < j < |rows| ==> KeyOf(rows[j]) != key
  }

  /** What the initial poll leaves of a peer: the round of its last row when it is watched and has one; else
      nothing is changed. */
  lemma {:induction false} InitialRounds(w: Watch, snapshot: map<string, int>, rows: seq<PeerRow>, key: string)
    ensures var s := TakeRows(w, snapshot, rows);
            && (forall i :: IsLastRow(rows, i, key) && Matches(w, key) ==> key in s && s[key] == rows[i].lastRound)
            && (!Matches(w, key) || (forall i :: 0 <= i < |rows| ==> KeyOf(rows[i]) != key) ==>
                  (key in s <==> key in snapshot) && (key in s ==> s[key] == snapshot[key]))
  {
    hide Matches, KeyOf;
    if rows != [] {
      var front := rows[..|rows| - 1];
      InitialRounds(w, snapshot, front, key);
      forall i | IsLastRow(rows, i, key) ensures i < |front| ==> IsLastRow(front, i, key) {}
      assert forall i :: 0 <= i < |front| ==> front[i] == rows[i];
      hide IsLastRow;
      assert forall i :: IsLastRow(rows, i, key) ==> 0 <= i < |rows| && KeyOf(rows[i]) == key by { LastRowIsRow(rows, key); }
      assert KeyOf(rows[|front|]) == key ==> forall i :: IsLastRow(rows, i, key) ==> i == |front| by { LastRowIsRow(rows, key); }
    }
  }

  lemma LastRowIsRow(rows: seq<PeerRow>, key: string)
    ensures forall i :: IsLastRow(rows, i, key) ==> 0 <= i < |rows| && KeyOf(rows[i]) == key
    ensures rows != [] && KeyOf(rows[|rows| - 1]) == key ==> forall i :: IsLastRow(rows, i, key) ==> i == |rows| - 1
  {
    hide KeyOf;
  }

  // ---------- The events of one peer ----------

  function EventsOf(fired: seq<Fired>, key: string): seq<Fired> {
    if fired == [] then []
    else EventsOf(fired[..|fired| - 1], key) + (if fired[|fired| - 1].peer == key then [fired[|fired| - 1]] else [])
  }

  /** Intervals one after another, without gap or overlap, from `lo` to `hi`, each of positive length and
      with its length as count. */
  ghost predicate Chain(es: seq<Fired>, lo: int, hi: int) {
    if es == [] then lo == hi else
    var last := es[|es| - 1];
    last.newRound == hi && last.prevRound < hi && last.count == hi - last.prevRound
    && Chain(es[..|es| - 1], lo, last.prevRound)
  }

  function Counts(es: seq<Fired>): int {
    if es == [] then 0 else Counts(es[..|es| - 1]) + es[|es| - 1].count
  }

  /** The largest of `lo` and the rounds observed for a peer. */
  function Highest(rows: seq<PeerRow>, key: string, lo: int): int {
    if rows == [] then lo else
    var before := Highest(rows[..|rows| - 1], key, lo);
    var row := rows[|rows| - 1];
    if KeyOf(row) == key && row.lastRound > before then row.lastRound else before
  }

  /** `Highest` is the maximum: no observation exceeds it, and it is the start or an observation. */
  lemma {:induction false} HighestIsMaximum(rows: seq<PeerRow>, key: string, lo: int)
    ensures lo <= Highest(rows, key, lo)
    ensures forall i :: 0 <= i < |rows| && KeyOf(rows[i]) == key ==> rows[i].lastRound <= Highest(rows, key, lo)
    ensures Highest(rows, key, lo) == lo ||
              exists i :: 0 <= i < |rows| && KeyOf(rows[i]) == key && rows[i].lastRound == Highest(rows, key, lo)
  {
    if rows != [] {
      var front := rows[..|rows| - 1];
      HighestIsMaximum(front, key, lo);
      forall i | 0 <= i < |rows| && KeyOf(rows[i]) == key
        ensures rows[i].lastRound <= Highest(rows, key, lo)
      {
        if i < |front| {
          assert front[i] == rows[i];
        }
      }
      if Highest(front, key, lo) != lo && Highest(rows, key, lo) == Highest(front, key, lo) {
        var i :| 0 <= i < |front| && KeyOf(front[i]) == key && front[i].lastRound == Highest(front, key, lo);
        assert rows[i] == front[i];
      }
    }
  }

  lemma {:induction false} ChainSums(es: seq<Fired>, lo: int, hi: int)
    requires Chain(es, lo, hi)
    ensures Counts(es) == hi - lo && lo <= hi
    ensures forall i :: 0 <= i < |es| ==> es[i].count > 0 && lo <= es[i].prevRound && es[i].newRound <= hi
    ensures forall i, j :: 0 <= i < j < |es| ==> es[i].newRound <= es[j].prevRound
  {
    if es != [] {
      ChainSums(es[..|es| - 1], lo, es[|es| - 1].prevRound);
    }
  }

  /** Over any run of polls - failed polls, falling counters, repeated and new peers - the events fired for
      a watched peer chain from its round at the start (0 if it had none) to its round at the end, which is
      the maximum of the start and everything observed; for a peer that is not watched nothing happens. */
  lemma {:induction false} PeerChain(w: Watch, start: map<string, int>, rows: seq<PeerRow>, key: string)
    ensures var t := SeeRows(w, Tracker(start, []), rows);
            if Matches(w, key) then
              && Chain(EventsOf(t.fired, key), RoundOf(start, key), RoundOf(t.snapshot, key))
              && RoundOf(t.snapshot, key) == Highest(rows, key, RoundOf(start, key))
            else
              && EventsOf(t.fired, key) == []
              && (key in t.snapshot <==> key in start) && RoundOf(t.snapshot, key) == RoundOf(start, key)
  {
    hide Matches, KeyOf;
    if rows != [] {
      var front, row := rows[..|rows| - 1], rows[|rows| - 1];
      PeerChain(w, start, front, key);
      var before := SeeRows(w, Tracker(start, []), front);
      var t := SeeRow(w, before, row);
      if t != before {
        EventsOfAppend(before.fired, t.fired[|t.fired| - 1], key);
      }
      assert EventsOf(before.fired, key) + [] == EventsOf(before.fired, key);
      if t != before && KeyOf(row) == key {
        ChainAppend(EventsOf(before.fired, key), t.fired[|t.fired| - 1], RoundOf(start, key));
      }
    }
  }

  lemma {:induction false} EventsOfAppend(fired: seq<Fired>, e: Fired, key: string)
    ensures EventsOf(fired + [e], key) == EventsOf(fired, key) + if e.peer == key then [e] else []
  {
    assert (fired + [e])[..|fired + [e]| - 1] == fired;
  }

  lemma {:induction false} ChainAppend(es: seq<Fired>, e: Fired, lo: int)
    requires Chain(es, lo, e.prevRound) && e.prevRound < e.newRound && e.count == e.newRound - e.prevRound
    ensures Chain(es + [e], lo, e.newRound)
  {
    assert (es + [e])[..|es + [e]| - 1] == es;
  }

  /** So the counts of a watched peer are positive, add up to its progress, and its intervals do not overlap. */
  lemma PeerEventsAddUp(w: Watch, start: map<string, int>, rows: seq<PeerRow>, key: string)
    requires Matches(w, key)
    ensures var t := SeeRows(w, Tracker(start, []), rows);
            var es := EventsOf(t.fired, key);
            && Counts(es) == RoundOf(t.snapshot, key) - RoundOf(start, key)
            && (forall i :: 0 <= i < |es| ==> es[i].count > 0)
            && (forall i, j :: 0 <= i < j < |es| ==> es[i].newRound <= es[j].prevRound)
  {
    PeerChain(w, start, rows, key);
    var t := SeeRows(w, Tracker(start, []), rows);
    ChainSums(EventsOf(t.fired, key), RoundOf(start, key), RoundOf(t.snapshot, key));
  }

  /** Which keys are watched: all of them under `*`; otherwise the name itself and, when it is an alias with a uuid,
      that uuid and its first eight characters, and nothing else. */
  lemma WatchedKeys(w: Watch, key: string)
    ensures w.peer == "*" ==> Matches(w, key)
    ensures w.peer != "*" && (w.peer !in w.aliases || w.aliases[w.peer] == "") ==> (Matches(w, key) <==> key == w.peer)
    ensures w.peer != "*" && w.peer in w.aliases && w.aliases[w.peer] != "" ==>
              (Matches(w, key) <==> key == w.peer || key == w.aliases[w.peer] || (|key| == 8 && key <= w.aliases[w.peer]))
  {
  }

  /** A row is known by its name, and by its uuid when it has none. */
  lemma KeysOfRows(name: string, uuid: string, round: int)
    ensures name != "" ==> KeyOf(PeerRow(name, uuid, round)) == name
    ensures KeyOf(PeerRow("", uuid, round)) == uuid
  {
  }

  /** What expressions see of an event that a poller fired. */
  lemma FiredShown(run: Run, context: Context, snap: Snap, f: Fired, granularity: string)
    requires run.ev == ToEvent(f, granularity)
    ensures var env, w := EnvOf(run, context, snap), snap.world;
            && ResolvePath(env, ["event", "type"], w) == Ok(Str("history_change"))
            && ResolvePath(env, ["event", "peer"], w) == Ok(Str(f.peer))
            && ResolvePath(env, ["event", "prev_round"], w) == Ok(Int(f.prevRound))
            && ResolvePath(env, ["event", "new_round"], w) == Ok(Int(f.newRound))
            && ResolvePath(env, ["event", "new_count"], w) == Ok(Int(f.count))
            && ResolvePath(env, ["event", "granularity"], w) == Ok(Str(granularity))
  {
    EventPaths(run, context, snap, "type");
    EventPaths(run, context, snap, "peer");
    EventPaths(run, context, snap, "prev_round");
    EventPaths(run, context, snap, "new_round");
    EventPaths(run, context, snap, "new_count");
    EventPaths(run, context, snap, "granularity");
    hide EnvOf, ResolvePath;
  }

  predicate Shows(row: PeerRow, e: Fired) {
    KeyOf(row) == e.peer && row.lastRound == e.newRound
  }

  /** Every event fired is for a watched peer, about a round that some row showed, and rises above the peer's
      round at the start. */
  lemma {:induction false} FiredRises(w: Watch, start: map<string, int>, rows: seq<PeerRow>, e: Fired)
    requires e in SeeRows(w, Tracker(start, []), rows).fired
    ensures Matches(w, e.peer) && RoundOf(start, e.peer) <= e.prevRound < e.newRound
    ensures exists i :: 0 <= i < |rows| && Shows(rows[i], e)
  {
    hide Matches, KeyOf;
    var front, row := rows[..|rows| - 1], rows[|rows| - 1];
    var before := SeeRows(w, Tracker(start, []), front);
    if e in before.fired {
      FiredRises(w, start, front, e);
      var i :| 0 <= i < |front| && Shows(front[i], e);
      assert Shows(rows[i], e);
    } else {
      assert Shows(rows[|rows| - 1], e);
      PeerChain(w, start, front, e.peer);
      HighestIsMaximum(front, e.peer, RoundOf(start, e.peer));
    }
  }

  // ---------- The events the statechart gets ----------

  /** The event `_fire` hands to the engine. */
  function ToEvent(f: Fired, granularity: string): Event {
    Event("history_change",
          map["peer" := Str(f.peer), "prev_round" := Int(f.prevRound), "new_round" := Int(f.newRound),
              "new_count" := Int(f.count), "granularity" := Str(granularity)],
          None, None)
  }
}
