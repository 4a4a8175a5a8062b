/** The paginated aggregation behind `list_peers` of core/history_client.py: many pages of tasks become
    one row for each peer. */
module PeerPages {
  import opened Text
  import opened Poller

  datatype Task = Task(id: string, contextId: string)

  /** A page of tasks and whether a token for another page came with it; or a failed call. */
  datatype Page = PageFailed | Page(tasks: seq<Task>, more: bool)

  /** An alias in the order of the table; without a uuid its first eight characters stand in. */
  datatype AliasEntry = AliasEntry(name: string, uuid: Option<string>)

  const CAP: nat := 50

  // ---------- Reading one task ----------

  /** The peer before the first `::`, if there is one. */
  function PeerOf(contextId: string): Option<string> {
    if |contextId| < 2 then None
    else if contextId[0] == ':' && contextId[1] == ':' then Some("")
    else
      var rest :- PeerOf(contextId[1..]);
      Some([contextId[0]] + rest)
  }

  function HexDigit(c: char): Option<nat> {
    if '0' <= c <= '9' then Some(c as int - '0' as int)
    else if 'a' <= c <= 'f' then Some(c as int - 'a' as int + 10)
    else if 'A' <= c <= 'F' then Some(c as int - 'A' as int + 10)
    else None
  }

  /** Hexadecimal digits, each of which one underscore may precede. */
  function HexBody(s: string): Option<nat> {
    if s == "" then None else
    var d :- HexDigit(s[|s| - 1]);
    var rest := s[..|s| - 1];
    var front := if rest != "" && rest[|rest| - 1] == '_' then rest[..|rest| - 1] else rest;
    if front == "" then Some(d) else
    var high :- HexBody(front);
    Some(16 * high + d)
  }

  /** The blanks that `int` ignores around ASCII digits: fewer than `str.isspace` knows. */
  predicate IsNumberBlank(c: char) {
    9 <= c as int <= 13 || c == ' '
  }

  function TrimEnd(s: string): string {
    if s == "" || !IsNumberBlank(s[|s| - 1]) then s else TrimEnd(s[..|s| - 1])
  }

  lemma {:induction false} TrimEndKeepsPrefix(id: string)
    requires "0x" <= id
    ensures "0x" <= TrimEnd(id)
  {
    if |id| == 2 {
      assert !IsNumberBlank(id[1]);
    } else if IsNumberBlank(id[|id| - 1]) {
      TrimEndKeepsPrefix(id[..|id| - 1]);
    }
  }

  // ---------- The fold ----------

  function IndexOf(rows: seq<PeerRow>, name: string): (i: nat)
    ensures i <= |rows|
    ensures forall j :: 0 <= j < i ==> rows[j].name != name
    ensures i < |rows| ==> rows[i].name == name
  {
    if rows == [] || rows[0].name == name then 0 else 1 + IndexOf(rows[1..], name)
  }

  function Raise(row: PeerRow, round: Option<nat>): PeerRow {
    if round.Some? && round.value > row.lastRound then row.(lastRound := round.value) else row
  }

  function TakeTask(rows: seq<PeerRow>, task: Task): seq<PeerRow> {
    match PeerOf(task.contextId)
    case None => rows
    case Some(name) =>
      var i := IndexOf(rows, name);
      if i < |rows| then rows[i := Raise(rows[i], RoundOfTask(task))]
      else rows + [Raise(PeerRow(name, Short(task.id), 0), RoundOfTask(task))]
  }

  /** The round a task id stands for: its hexadecimal value after `0x`, nothing when that does not parse,
      and 0 without the prefix. */
  function RoundOfTask(task: Task): Option<nat> {
    if "0x" <= task.id then
      TrimEndKeepsPrefix(task.id);
      HexBody(TrimEnd(task.id)[2..])
    else
      Some(0)
  }

  /** All tasks in one pass. */
  function TakeTasks(rows: seq<PeerRow>, tasks: seq<Task>): seq<PeerRow> {
    if tasks == [] then rows else TakeTask(TakeTasks(rows, tasks[..|tasks| - 1]), tasks[|tasks| - 1])
  }

  /** The rows after reading pages from the `i`-th on, and whether a call failed. */
  function Collect(pages: seq<Page>, i: nat, rows: seq<PeerRow>): (seq<PeerRow>, bool)
    requires i <= |pages|
    decreases |pages| - i
  {
    if i == |pages| then (rows, false) else
    match pages[i]
    case PageFailed => (rows, true)
    case Page(tasks, more) =>
      var after := TakeTasks(rows, tasks);
      if !more || |after| >= CAP then (after, false) else Collect(pages, i + 1, after)
  }

  function SetRow(rows: seq<PeerRow>, row: PeerRow): seq<PeerRow> {
    var i := IndexOf(rows, row.name);
    if i < |rows| then rows[i := row] else rows + [row]
  }

  function AliasRow(a: AliasEntry): PeerRow {
    PeerRow(a.name, if a.uuid.Some? then a.uuid.value else Short(a.name), 0)
  }

  function AddAliases(rows: seq<PeerRow>, aliases: seq<AliasEntry>): seq<PeerRow> {
    if aliases == [] then rows
    else SetRow(AddAliases(rows, aliases[..|aliases| - 1]), AliasRow(aliases[|aliases| - 1]))
  }

  /** A finite chain of pages: the last one carries no further token, or fails. */
  predicate EndsProperly(pages: seq<Page>) {
    pages != [] && (pages[|pages| - 1].Page? ==> !pages[|pages| - 1].more)
  }

  /** `list_peers` after its cache lookup. */
  method ListPeers(pages: seq<Page>, aliases: seq<AliasEntry>) returns (peers: seq<PeerRow>)
    requires EndsProperly(pages)
    ensures var (rows, failed) := Collect(pages, 0, []);
            peers == if failed then AddAliases(rows, aliases) else rows
  {
    peers := [];
    var i := 0;
    while true
      invariant 0 <= i < |pages|
      invariant Collect(pages, 0, []) == Collect(pages, i, peers)
      decreases |pages| - i
    {
      if pages[i].PageFailed? {
        peers := Fallback(peers, aliases);
        return;
      }
      var tasks := pages[i].tasks;
      ghost var before := peers;
      var j := 0;
      while j < |tasks|
        invariant 0 <= j <= |tasks|
        invariant peers == TakeTasks(before, tasks[..j])
      {
        assert tasks[..j + 1][..j] == tasks[..j];
        peers := AddTask(peers, tasks[j]);
        j := j + 1;
      }
      assert tasks[..j] == tasks;
      if !pages[i].more {
        return;
      }
      if |peers| >= CAP {
        return;
      }
      i := i + 1;
    }
  }

  /** The body of the task loop. */
  method AddTask(rows: seq<PeerRow>, task: Task) returns (peers: seq<PeerRow>)
    ensures peers == TakeTask(rows, task)
  {
    peers := rows;
    var name := PeerOf(task.contextId);
    if name.None? {
      return;
    }
    var i := IndexOf(peers, name.value);
    if i == |peers| {
      peers := peers + [PeerRow(name.value, Short(task.id), 0)];
    }
    var round := RoundOfTask(task);
    if round.Some? {
      var last := peers[i].lastRound;
      peers := peers[i := peers[i].(lastRound := if round.value > last then round.value else last)];
    }
  }

  method Fallback(rows: seq<PeerRow>, aliases: seq<AliasEntry>) returns (peers: seq<PeerRow>)
    ensures peers == AddAliases(rows, aliases)
  {
    peers := rows;
    var i := 0;
    while i < |aliases|
      invariant 0 <= i <= |aliases|
      invariant peers == AddAliases(rows, aliases[..i])
    {
      assert aliases[..i + 1][..i] == aliases[..i];
      peers := SetRow(peers, AliasRow(aliases[i]));
      i := i + 1;
    }
    assert aliases[..i] == aliases;
  }

  // ---------- Which pages are covered ----------

  function TasksOf(pages: seq<Page>): seq<Task> {
    if pages == [] then []
    else TasksOf(pages[..|pages| - 1]) + (if pages[|pages| - 1].Page? then pages[|pages| - 1].tasks else [])
  }

  lemma {:induction false} TakeTasksTwice(rows: seq<PeerRow>, a: seq<Task>, b: seq<Task>)
    ensures TakeTasks(TakeTasks(rows, a), b) == TakeTasks(rows, a + b)
  {
    if b == [] {
      assert a + b == a;
    } else {
      assert (a + b)[..|a + b| - 1] == a + b[..|b| - 1];
      TakeTasksTwice(rows, a, b[..|b| - 1]);
    }
  }

  /** The first `k` pages were read and no more: each of them went well, each but the last announced another,
      and the reading ended by a page without a token, by the cap, or by a failing page. */
  ghost predicate Covers(pages: seq<Page>, k: nat, rows: seq<PeerRow>, failed: bool) {
    && k <= |pages|
    && (forall j :: 0 <= j < k ==> pages[j].Page? && (j < k - 1 ==> pages[j].more))
    && (if failed then k < |pages| && pages[k].PageFailed?
        else k > 0 && (!pages[k - 1].more || |rows| >= 50))
  }

  lemma {:induction false} CollectFrom(pages: seq<Page>, i: nat, rows: seq<PeerRow>) returns (k: nat)
    requires EndsProperly(pages) && i < |pages|
    requires forall j :: 0 <= j < i ==> pages[j].Page? && pages[j].more
    requires rows == TakeTasks([], TasksOf(pages[..i]))
    ensures var (result, failed) := Collect(pages, i, rows);
            Covers(pages, k, result, failed) && result == TakeTasks([], TasksOf(pages[..k]))
    decreases |pages| - i
  {
    hide TakeTasks;
    match pages[i]
    case PageFailed => k := i;
    case Page(tasks, more) =>
      var after := TakeTasks(rows, tasks);
      assert pages[..i + 1][..i] == pages[..i];
      TakeTasksTwice([], TasksOf(pages[..i]), tasks);
      if !more || |after| >= CAP {
        k := i + 1;
      } else {
        k := CollectFrom(pages, i + 1, after);
      }
  }

  /** The aggregation is a one-pass fold over the tasks of the first `k` pages, and these are all pages of the
      chain unless the cap was reached or a call failed. */
  lemma CollectIsOnePass(pages: seq<Page>) returns (k: nat)
    requires EndsProperly(pages)
    ensures var (rows, failed) := Collect(pages, 0, []);
            && Covers(pages, k, rows, failed)
            && rows == TakeTasks([], TasksOf(pages[..k]))
            && (!failed && |rows| < 50 ==> !pages[k - 1].more)
  {
    assert TasksOf(pages[..0]) == [] && TakeTasks([], []) == [];
    k := CollectFrom(pages, 0, []);
  }

  // ---------- What the fold computes ----------

  predicate IsOf(task: Task, name: string) {
    PeerOf(task.contextId) == Some(name)
  }

  /** The first task of a peer; the number of tasks when it has none. */
  function First(tasks: seq<Task>, name: string): (i: nat)
    ensures i <= |tasks|
    ensures forall j :: 0 <= j < i ==> !IsOf(tasks[j], name)
    ensures i < |tasks| ==> IsOf(tasks[i], name)
  {
    if tasks == [] || IsOf(tasks[0], name) then 0 else 1 + First(tasks[1..], name)
  }

  /** The largest of 0 and the rounds of a peer's tasks. */
  function TopRound(tasks: seq<Task>, name: string): nat {
    if tasks == [] then 0 else
    var before := TopRound(tasks[..|tasks| - 1], name);
    var task := tasks[|tasks| - 1];
    if IsOf(task, name) && RoundOfTask(task).Some? && RoundOfTask(task).value > before then RoundOfTask(task).value else before
  }

  lemma {:induction false} FirstUnique(tasks: seq<Task>, name: string, i: nat)
    requires i <= |tasks| && (forall j :: 0 <= j < i ==> !IsOf(tasks[j], name)) && (i < |tasks| ==> IsOf(tasks[i], name))
    ensures First(tasks, name) == i
  {
    var f := First(tasks, name);
    assert f < |tasks| ==> IsOf(tasks[f], name);
  }

  /** Adding a task at the end moves no first task that exists. */
  lemma {:induction false} FirstAppend(tasks: seq<Task>, task: Task, name: string)
    ensures First(tasks + [task], name) ==
              if First(tasks, name) < |tasks| || IsOf(task, name) then First(tasks, name) else |tasks| + 1
  {
    hide IsOf;
    var f := First(tasks, name);
    FirstUnique(tasks + [task], name, if f < |tasks| || IsOf(task, name) then f else |tasks| + 1);
  }

  /** The row a peer should have: its name, the short id of its first task, its highest round. */
  function RowOf(tasks: seq<Task>, name: string): PeerRow
    requires First(tasks, name) < |tasks|
  {
    PeerRow(name, Short(tasks[First(tasks, name)].id), TopRound(tasks, name))
  }

  predicate IsRowOf(tasks: seq<Task>, row: PeerRow) {
    First(tasks, row.name) < |tasks| && row == RowOf(tasks, row.name)
  }

  ghost predicate IsSummary(tasks: seq<Task>, rows: seq<PeerRow>) {
    && (forall i :: 0 <= i < |rows| ==> IsRowOf(tasks, rows[i]))
    && (forall name :: First(tasks, name) < |tasks| ==> IndexOf(rows, name) < |rows|)
    && (forall i, j :: 0 <= i < j < |rows| ==> First(tasks, rows[i].name) < First(tasks, rows[j].name))
  }

  lemma {:induction false} TopRoundAppend(tasks: seq<Task>, task: Task, name: string)
    ensures TopRound(tasks + [task], name) ==
              if IsOf(task, name) && RoundOfTask(task).Some? && RoundOfTask(task).value > TopRound(tasks, name)
              then RoundOfTask(task).value else TopRound(tasks, name)
  {
    assert (tasks + [task])[..|tasks + [task]| - 1] == tasks;
  }

  lemma {:induction false} TopRoundOfNone(tasks: seq<Task>, name: string)
    requires First(tasks, name) == |tasks|
    ensures TopRound(tasks, name) == 0
  {
    hide IsOf;
    if tasks != [] {
      var front := tasks[..|tasks| - 1];
      assert front + [tasks[|tasks| - 1]] == tasks;
      FirstAppend(front, tasks[|tasks| - 1], name);
      TopRoundOfNone(front, name);
    }
  }

  /** What a further task does to the row a known peer should have. */
  lemma RowKept(tasks: seq<Task>, task: Task, name: string)
    requires First(tasks, name) < |tasks|
    ensures First(tasks + [task], name) == First(tasks, name)
    ensures RowOf(tasks + [task], name) ==
              if IsOf(task, name) then Raise(RowOf(tasks, name), RoundOfTask(task)) else RowOf(tasks, name)
  {
    FirstAppend(tasks, task, name);
    TopRoundAppend(tasks, task, name);
    hide First, TopRound, RoundOfTask, IsOf;
    assert (tasks + [task])[First(tasks, name)] == tasks[First(tasks, name)];
  }

  /** The row of a peer that the task shows for the first time. */
  lemma RowNew(tasks: seq<Task>, task: Task, name: string)
    requires First(tasks, name) == |tasks| && IsOf(task, name)
    ensures First(tasks + [task], name) == |tasks|
    ensures RowOf(tasks + [task], name) == Raise(PeerRow(name, Short(task.id), 0), RoundOfTask(task))
  {
    FirstAppend(tasks, task, name);
    TopRoundAppend(tasks, task, name);
    TopRoundOfNone(tasks, name);
    hide First, TopRound, RoundOfTask, IsOf;
  }

  lemma SummaryStep(tasks: seq<Task>, rows: seq<PeerRow>, task: Task)
    requires IsSummary(tasks, rows)
    ensures IsSummary(tasks + [task], TakeTask(rows, task))
  {
    SummaryNames(tasks, rows, task);
    SummaryRows(tasks, rows, task);
  }

  lemma SummaryRowAt(tasks: seq<Task>, rows: seq<PeerRow>, task: Task, i: nat)
    requires IsSummary(tasks, rows) && i < |TakeTask(rows, task)|
    ensures IsRowOf(tasks + [task], TakeTask(rows, task)[i])
    ensures i < |rows| ==> TakeTask(rows, task)[i].name == rows[i].name
                           && First(tasks + [task], rows[i].name) == First(tasks, rows[i].name)
    ensures i == |rows| ==> First(tasks + [task], TakeTask(rows, task)[i].name) == |tasks|
  {
    if i < |rows| {
      SummaryOldRow(tasks, rows, task, i);
    } else {
      SummaryNewRow(tasks, rows, task);
    }
  }

  lemma SummaryOldRow(tasks: seq<Task>, rows: seq<PeerRow>, task: Task, i: nat)
    requires IsSummary(tasks, rows) && i < |rows|
    ensures i < |TakeTask(rows, task)| && IsRowOf(tasks + [task], TakeTask(rows, task)[i])
    ensures TakeTask(rows, task)[i].name == rows[i].name
    ensures First(tasks + [task], rows[i].name) == First(tasks, rows[i].name)
  {
    assert IsRowOf(tasks, rows[i]);
    RowKept(tasks, task, rows[i].name);
    RowIndex(tasks, rows, i);
    hide IsSummary, First, RowOf, RoundOfTask, PeerOf, IndexOf;
  }

  lemma SummaryNewRow(tasks: seq<Task>, rows: seq<PeerRow>, task: Task)
    requires IsSummary(tasks, rows) && |TakeTask(rows, task)| == |rows| + 1
    ensures IsRowOf(tasks + [task], TakeTask(rows, task)[|rows|])
    ensures First(tasks + [task], TakeTask(rows, task)[|rows|].name) == |tasks|
  {
    var name := PeerOf(task.contextId).value;
    assert First(tasks, name) == |tasks|;
    RowNew(tasks, task, name);
    hide IsSummary, First, RowOf, RoundOfTask, PeerOf, IndexOf;
  }

  /** In a summary the row of a name is found where it stands. */
  lemma RowIndex(tasks: seq<Task>, rows: seq<PeerRow>, i: nat)
    requires IsSummary(tasks, rows) && i < |rows|
    ensures IndexOf(rows, rows[i].name) == i
  {
    hide First, IndexOf, IsRowOf;
    var k := IndexOf(rows, rows[i].name);
    assert k <= i;
    assert rows[k].name == rows[i].name;
    assert First(tasks, rows[k].name) == First(tasks, rows[i].name);
  }

  lemma SummaryRows(tasks: seq<Task>, rows: seq<PeerRow>, task: Task)
    requires IsSummary(tasks, rows)
    ensures var more, rows' := tasks + [task], TakeTask(rows, task);
            && (forall i :: 0 <= i < |rows'| ==> IsRowOf(more, rows'[i]))
            && (forall i, j :: 0 <= i < j < |rows'| ==> First(more, rows'[i].name) < First(more, rows'[j].name))
  {
    var rows' := TakeTask(rows, task);
    assert |rows'| <= |rows| + 1;
    forall i | 0 <= i < |rows'| { SummaryRowAt(tasks, rows, task, i); }
    forall i | 0 <= i < |rows| ensures First(tasks, rows[i].name) < |tasks| { assert IsRowOf(tasks, rows[i]); }
    hide First, IsRowOf, TakeTask;
  }

  lemma SummaryNames(tasks: seq<Task>, rows: seq<PeerRow>, task: Task)
    requires IsSummary(tasks, rows)
    ensures forall name :: First(tasks + [task], name) < |tasks| + 1 ==>
              IndexOf(TakeTask(rows, task), name) < |TakeTask(rows, task)|
  {
    hide First, TopRound, RoundOfTask, PeerOf;
    var rows' := TakeTask(rows, task);
    forall name | First(tasks + [task], name) < |tasks| + 1
      ensures IndexOf(rows', name) < |rows'|
    {
      FirstAppend(tasks, task, name);
      if First(tasks, name) < |tasks| {
        var i := IndexOf(rows, name);
        assert i < |rows| && rows'[i].name == name;
      } else {
        assert IsOf(task, name);
        var i := IndexOf(rows, name);
        assert i < |rows'| && rows'[i].name == name;
      }
    }
  }

  /** The one-pass fold gives each peer that occurs exactly one row, in the order of first occurrence: its
      name, the short id of its first task, and the largest of 0 and its parsed rounds. */
  lemma {:induction false} TakeTasksSummarises(tasks: seq<Task>)
    ensures IsSummary(tasks, TakeTasks([], tasks))
  {
    if tasks != [] {
      var front := tasks[..|tasks| - 1];
      TakeTasksSummarises(front);
      SummaryStep(front, TakeTasks([], front), tasks[|tasks| - 1]);
      assert front + [tasks[|tasks| - 1]] == tasks;
    }
  }

  /** `TopRound` is a maximum: it bounds every parsed round of the peer and is one of them or 0. */
  lemma {:induction false} TopRoundIsMaximum(tasks: seq<Task>, name: string)
    ensures forall i :: 0 <= i < |tasks| && IsOf(tasks[i], name) && RoundOfTask(tasks[i]).Some? ==>
              RoundOfTask(tasks[i]).value <= TopRound(tasks, name)
    ensures TopRound(tasks, name) == 0 ||
              exists i :: 0 <= i < |tasks| && IsOf(tasks[i], name) && RoundOfTask(tasks[i]) == Some(TopRound(tasks, name))
  {
    hide RoundOfTask, IsOf;
    if tasks != [] {
      var front := tasks[..|tasks| - 1];
      TopRoundIsMaximum(front, name);
      forall i | 0 <= i < |tasks| && IsOf(tasks[i], name) && RoundOfTask(tasks[i]).Some?
        ensures RoundOfTask(tasks[i]).value <= TopRound(tasks, name)
      {
        if i < |front| {
          assert front[i] == tasks[i];
        }
      }
      if TopRound(front, name) != 0 && TopRound(tasks, name) == TopRound(front, name) {
        var i :| 0 <= i < |front| && IsOf(front[i], name) && RoundOfTask(front[i]) == Some(TopRound(front, name));
        assert tasks[i] == front[i];
      }
    }
  }

  // ---------- The fallback ----------

  /** The rows of the alias fallback never fire an event for a peer already seen at round 0 or later: a
      failed listing cannot look like progress. */
  lemma {:induction false} FallbackNeverFires(w: Watch, t: Tracker, aliases: seq<AliasEntry>)
    requires forall key :: RoundOf(t.snapshot, key) >= 0
    ensures SeeRows(w, t, AddAliases([], aliases)) == t
  {
    AliasRowsAreZero(aliases);
    ZeroRowsNeverFire(w, t, AddAliases([], aliases));
  }

  lemma {:induction false} AliasRowsAreZero(aliases: seq<AliasEntry>)
    ensures forall i :: 0 <= i < |AddAliases([], aliases)| ==> AddAliases([], aliases)[i].lastRound == 0
  {
    if aliases != [] {
      AliasRowsAreZero(aliases[..|aliases| - 1]);
    }
  }

  lemma {:induction false} ZeroRowsNeverFire(w: Watch, t: Tracker, rows: seq<PeerRow>)
    requires forall key :: RoundOf(t.snapshot, key) >= 0
    requires forall i :: 0 <= i < |rows| ==> rows[i].lastRound == 0
    ensures SeeRows(w, t, rows) == t
  {
    hide Matches;
    if rows != [] {
      ZeroRowsNeverFire(w, t, rows[..|rows| - 1]);
      assert RoundOf(t.snapshot, KeyOf(rows[|rows| - 1])) >= 0;
    }
  }

  /** What the fallback adds: after it every alias has the row of its last entry in the table - its name, its uuid
      or the first eight characters of its name, round 0 - and every other name the row it had. */
  lemma {:induction false} AliasesListed(rows: seq<PeerRow>, aliases: seq<AliasEntry>, name: string)
    ensures var all := AddAliases(rows, aliases);
            var last := LastEntry(aliases, name);
            var i := IndexOf(all, name);
            if last < |aliases| then
              i < |all| && all[i] == PeerRow(name, match aliases[last].uuid case Some(u) => u case None => Short(name), 0)
            else (i < |all| <==> IndexOf(rows, name) < |rows|) && (i < |all| ==> all[i] == rows[IndexOf(rows, name)])
  {
    if aliases != [] {
      var front, a := aliases[..|aliases| - 1], aliases[|aliases| - 1];
      AliasesListed(rows, front, name);
      SetRowSets(AddAliases(rows, front), AliasRow(a), name);
    }
  }

  /** The last entry of a name; the number of entries when it has none. */
  function LastEntry(aliases: seq<AliasEntry>, name: string): (i: nat)
    ensures i <= |aliases|
    ensures i < |aliases| ==> aliases[i].name == name
    ensures forall j :: 0 <= j < |aliases| && aliases[j].name == name ==> i < |aliases| && j <= i
  {
    if aliases == [] then 0
    else
      var n := |aliases| - 1;
      if aliases[n].name == name then n
      else
        var i := LastEntry(aliases[..n], name);
        assert forall j :: 0 <= j < n ==> aliases[..n][j] == aliases[j];
        if i < n then i else n + 1
  }

  lemma SetRowSets(rows: seq<PeerRow>, row: PeerRow, name: string)
    ensures var after := SetRow(rows, row);
            var i := IndexOf(after, name);
            if name == row.name then i < |after| && after[i] == row
            else (i < |after| <==> IndexOf(rows, name) < |rows|) && (i < |after| ==> after[i] == rows[IndexOf(rows, name)])
  {
    var after := SetRow(rows, row);
    var i, j := IndexOf(after, name), IndexOf(rows, name);
    if name == row.name {
      assert j < |rows| ==> after[j].name == name;
      assert j == |rows| ==> after[|rows|].name == name;
      assert i < |after|;
    } else {
      assert j < |rows| ==> after[j] == rows[j];
      assert i < |after| ==> i < |rows| && after[i] == rows[i];
    }
  }

  // ---------- Reading ids ----------

  const HEX: string := "0123456789abcdef"
  const HEX_CAPITALS: string := "0123456789ABCDEF"

  /** A number in hexadecimal, in small or capital digits. */
  function HexText(n: nat, capitals: bool): (s: string)
    ensures s != "" && s[|s| - 1] != '_'
  {
    var d := if capitals then HEX_CAPITALS[n % 16] else HEX[n % 16];
    HexDigitIs(n % 16);
    if n < 16 then [d] else HexText(n / 16, capitals) + [d]
  }

  lemma HexDigitIs(d: nat)
    requires d < 16
    ensures HexDigit(HEX[d]) == Some(d) && HexDigit(HEX_CAPITALS[d]) == Some(d)
    ensures HEX[d] != '_' && HEX_CAPITALS[d] != '_'
  {
  }

  /** Hexadecimal text is read as the number it spells. */
  lemma {:induction false} HexRoundTrip(n: nat, capitals: bool)
    ensures HexBody(HexText(n, capitals)) == Some(n)
  {
    HexDigitIs(n % 16);
    var s := HexText(n, capitals);
    if n >= 16 {
      HexRoundTrip(n / 16, capitals);
      assert s[..|s| - 1] == HexText(n / 16, capitals);
    } else {
      assert s[..0] == "";
    }
  }

  /** One underscore between two digits makes no difference. */
  lemma {:induction false} UnderscoreIsIgnored(s: string, d: char)
    requires s != "" && s[|s| - 1] != '_'
    ensures HexBody(s + "_" + [d]) == HexBody(s + [d])
  {
    LastHexDigit(s + "_", d, s);
    LastHexDigit(s, d, s);
    hide HexBody, HexDigit;
  }

  /** Reading the last digit, with or without an underscore before it. */
  lemma {:induction false} LastHexDigit(rest: string, d: char, front: string)
    requires front != "" && (rest == front + "_" || (rest == front && front[|front| - 1] != '_'))
    ensures HexBody(rest + [d]) == match HexDigit(d)
                                   case None => None
                                   case Some(x) => match HexBody(front) case None => None case Some(high) => Some(16 * high + x)
  {
    var t := rest + [d];
    assert t[|t| - 1] == d && t[..|t| - 1] == rest;
    if rest != front {
      assert rest[..|rest| - 1] == front;
    }
  }

  const NUMBER_BLANKS: string := ['\t', '\n', 11 as char, 12 as char, '\r', ' ']

  lemma {:induction false} TrimEndTrims(s: string, blanks: string)
    requires forall i :: 0 <= i < |blanks| ==> blanks[i] in NUMBER_BLANKS
    requires s != "" && !IsNumberBlank(s[|s| - 1])
    ensures TrimEnd(s + blanks) == s
  {
    if blanks == "" {
      assert s + blanks == s;
    } else {
      var n := |blanks| - 1;
      assert blanks[n] in NUMBER_BLANKS;
      assert (s + blanks)[..|s + blanks| - 1] == s + blanks[..n];
      TrimEndTrims(s, blanks[..n]);
    }
  }

  /** The round of a task: the number its id spells after `0x`, whatever blanks follow; 0 for any other id. */
  lemma RoundsAreHex(n: nat, capitals: bool, blanks: string, contextId: string, id: string)
    requires forall i :: 0 <= i < |blanks| ==> blanks[i] in NUMBER_BLANKS
    ensures RoundOfTask(Task("0x" + HexText(n, capitals) + blanks, contextId)) == Some(n)
    ensures !("0x" <= id) ==> RoundOfTask(Task(id, contextId)) == Some(0)
  {
    var s := "0x" + HexText(n, capitals);
    HexRoundTrip(n, capitals);
    HexEnds(n, capitals);
    hide HexBody, HexText, NUMBER_BLANKS;
    TrimEndTrims(s, blanks);
    assert "0x" <= s + blanks && s[2..] == HexText(n, capitals);
  }

  lemma HexEnds(n: nat, capitals: bool)
    ensures !IsNumberBlank(HexText(n, capitals)[|HexText(n, capitals)| - 1])
  {
    var d := n % 16;
    assert !IsNumberBlank(HEX[d]) && !IsNumberBlank(HEX_CAPITALS[d]) by { HexDigitIs(d); }
  }

  /** The peer of a context is what stands before its first `::`; without one there is none. */
  lemma {:induction false} PeerOfIff(contextId: string, peer: string)
    ensures PeerOf(contextId) == Some(peer) <==>
              peer + "::" <= contextId && forall i :: 0 <= i < |peer| ==> !(contextId[i] == ':' && contextId[i + 1] == ':')
  {
    var s := contextId;
    if |s| < 2 {
    } else if s[0] == ':' && s[1] == ':' {
      assert peer == "" ==> "" + "::" == "::" && "::" <= s;
    } else {
      if peer == "" {
        assert "" + "::" == "::";
      } else {
        PeerOfIff(s[1..], peer[1..]);
        assert peer == [peer[0]] + peer[1..] && (peer + "::")[1..] == peer[1..] + "::";
        assert peer + "::" <= s <==> peer[0] == s[0] && peer[1..] + "::" <= s[1..];
        assert forall i :: 0 < i < |s| ==> s[1..][i - 1] == s[i];
      }
    }
  }
}
