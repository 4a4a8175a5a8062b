/** The two inbound scanners of core/history_proxy.py: one searches the text parts one by one, the other
    joins them with newlines; for which needles they agree. */
module Inbound {
  import opened Text

  datatype Part = Part(kind: string, text: Option<string>)

  datatype Message = Message(role: string, parts: seq<Part>)

  /** `last(5)`: an unknown peer, or the recent messages. */
  datatype Window = UnknownPeer | Recent(messages: seq<Message>)

  datatype Scan<+T> = PeerNotFound | HistoryEmpty | Answer(value: T)

  function TextOf(p: Part): string {
    if p.text.Some? then p.text.value else ""
  }

  /** The texts of the text parts among the first `n` parts, empty ones included. */
  function PartTexts(parts: seq<Part>, n: nat): seq<string>
    requires n <= |parts|
  {
    if n == 0 then [] else
    PartTexts(parts, n - 1) + (if parts[n - 1].kind == "text" then [TextOf(parts[n - 1])] else [])
  }

  /** The texts of the inbound messages among the first `n`. */
  function InboundTexts(messages: seq<Message>, n: nat): seq<string>
    requires n <= |messages|
  {
    if n == 0 then [] else
    InboundTexts(messages, n - 1) +
    (if messages[n - 1].role == "inbound" then PartTexts(messages[n - 1].parts, |messages[n - 1].parts|) else [])
  }

  function NonEmpty(texts: seq<string>): seq<string> {
    if texts == [] then []
    else NonEmpty(texts[..|texts| - 1]) + (if texts[|texts| - 1] == "" then [] else [texts[|texts| - 1]])
  }

  predicate SomeContains(texts: seq<string>, needle: string) {
    exists i :: 0 <= i < |texts| && Contains(texts[i], needle)
  }

  function ContainsSpec(w: Window, needle: string): Scan<bool> {
    match w
    case UnknownPeer => PeerNotFound
    case Recent(messages) =>
      if messages == [] then HistoryEmpty else Answer(SomeContains(InboundTexts(messages, |messages|), needle))
  }

  function TextSpec(w: Window): Scan<string> {
    match w
    case UnknownPeer => PeerNotFound
    case Recent(messages) =>
      if messages == [] then HistoryEmpty else Answer(Join(NonEmpty(InboundTexts(messages, |messages|)), "\n"))
  }

  // ---------- The scanners, as loops ----------

  lemma SomeContainsConcat(a: seq<string>, b: seq<string>, needle: string)
    ensures SomeContains(a + b, needle) <==> SomeContains(a, needle) || SomeContains(b, needle)
  {
    hide Contains;
    forall i | 0 <= i < |a| ensures (a + b)[i] == a[i] {}
    forall i | 0 <= i < |b| ensures (a + b)[|a| + i] == b[i] {}
  }

  /** Whether one of a message's text parts contains the needle. */
  method SearchParts(parts: seq<Part>, needle: string) returns (found: bool)
    ensures found == SomeContains(PartTexts(parts, |parts|), needle)
  {
    hide Contains;
    var i := 0;
    while i < |parts|
      invariant 0 <= i <= |parts|
      invariant !SomeContains(PartTexts(parts, i), needle)
    {
      ghost var here := if parts[i].kind == "text" then [TextOf(parts[i])] else [];
      SomeContainsConcat(PartTexts(parts, i), here, needle);
      if parts[i].kind == "text" && Contains(TextOf(parts[i]), needle) {
        assert here[0] == TextOf(parts[i]);
        PartTextsGrow(parts, i + 1, needle);
        return true;
      }
      i := i + 1;
    }
    return false;
  }

  lemma {:induction false} PartTextsGrow(parts: seq<Part>, n: nat, needle: string)
    requires n <= |parts| && SomeContains(PartTexts(parts, n), needle)
    ensures SomeContains(PartTexts(parts, |parts|), needle)
    decreases |parts| - n
  {
    hide Contains;
    if n < |parts| {
      SomeContainsConcat(PartTexts(parts, n), if parts[n].kind == "text" then [TextOf(parts[n])] else [], needle);
      PartTextsGrow(parts, n + 1, needle);
    }
  }

  lemma {:induction false} InboundTextsGrow(messages: seq<Message>, n: nat, needle: string)
    requires n <= |messages| && SomeContains(InboundTexts(messages, n), needle)
    ensures SomeContains(InboundTexts(messages, |messages|), needle)
    decreases |messages| - n
  {
    hide Contains;
    if n < |messages| {
      SomeContainsConcat(InboundTexts(messages, n),
                         if messages[n].role == "inbound" then PartTexts(messages[n].parts, |messages[n].parts|) else [], needle);
      InboundTextsGrow(messages, n + 1, needle);
    }
  }

  /** `last_inbound_contains`. */
  method LastInboundContains(w: Window, needle: string) returns (r: Scan<bool>)
    ensures r == ContainsSpec(w, needle)
  {
    hide Contains;
    if w.UnknownPeer? {
      return PeerNotFound;
    }
    if w.messages == [] {
      return HistoryEmpty;
    }
    var i := 0;
    while i < |w.messages|
      invariant 0 <= i <= |w.messages|
      invariant !SomeContains(InboundTexts(w.messages, i), needle)
    {
      var m := w.messages[i];
      SomeContainsConcat(InboundTexts(w.messages, i), if m.role == "inbound" then PartTexts(m.parts, |m.parts|) else [], needle);
      if m.role == "inbound" {
        var found := SearchParts(m.parts, needle);
        if found {
          InboundTextsGrow(w.messages, i + 1, needle);
          return Answer(true);
        }
      }
      i := i + 1;
    }
    return Answer(false);
  }

  lemma {:induction false} NonEmptyConcat(a: seq<string>, b: seq<string>)
    ensures NonEmpty(a + b) == NonEmpty(a) + NonEmpty(b)
  {
    if b == [] {
      assert a + b == a;
      assert NonEmpty(a) + [] == NonEmpty(a);
    } else {
      assert (a + b)[..|a + b| - 1] == a + b[..|b| - 1];
      NonEmptyConcat(a, b[..|b| - 1]);
    }
  }

  /** The non-empty texts of a message's text parts. */
  method CollectParts(parts: seq<Part>) returns (texts: seq<string>)
    ensures texts == NonEmpty(PartTexts(parts, |parts|))
  {
    assert NonEmpty([]) == [];
    hide NonEmpty;
    texts := [];
    var i := 0;
    while i < |parts|
      invariant 0 <= i <= |parts|
      invariant texts == NonEmpty(PartTexts(parts, i))
    {
      PartTextsNext(parts, i);
      if parts[i].kind == "text" {
        var t := TextOf(parts[i]);
        if t != "" {
          texts := texts + [t];
        }
      }
      i := i + 1;
    }
  }

  lemma {:induction false} PartTextsNext(parts: seq<Part>, i: nat)
    requires i < |parts|
    ensures var before, t := NonEmpty(PartTexts(parts, i)), TextOf(parts[i]);
            NonEmpty(PartTexts(parts, i + 1)) == if parts[i].kind == "text" && t != "" then before + [t] else before
  {
    var t, front := TextOf(parts[i]), PartTexts(parts, i);
    NonEmptyOne(t);
    NonEmptyConcat(front, [t]);
    assert front + [] == front && NonEmpty(front) + [] == NonEmpty(front);
    hide NonEmpty;
  }

  /** `last_inbound_text`. */
  method LastInboundText(w: Window) returns (r: Scan<string>)
    ensures r == TextSpec(w)
  {
    if w.UnknownPeer? {
      return PeerNotFound;
    }
    if w.messages == [] {
      return HistoryEmpty;
    }
    var texts: seq<string> := [];
    var i := 0;
    while i < |w.messages|
      invariant 0 <= i <= |w.messages|
      invariant texts == NonEmpty(InboundTexts(w.messages, i))
    {
      var m := w.messages[i];
      NonEmptyConcat(InboundTexts(w.messages, i), if m.role == "inbound" then PartTexts(m.parts, |m.parts|) else []);
      if m.role == "inbound" {
        var more := CollectParts(m.parts);
        texts := texts + more;
      }
      i := i + 1;
    }
    return Answer(Join(texts, "\n"));
  }

  // ---------- When the scanners agree ----------

  /** A needle without the separator is never found across it. */
  lemma ContainsAcross(a: string, c: char, b: string, needle: string)
    requires needle != "" && c !in needle
    ensures Contains(a + [c] + b, needle) <==> Contains(a, needle) || Contains(b, needle)
  {
    var s := a + [c] + b;
    forall i | 0 <= i <= |s| && OccursAt(s, needle, i)
      ensures Contains(a, needle) || Contains(b, needle)
    {
      Straddle(a, c, b, needle, i);
    }
    forall i | 0 <= i <= |a| && OccursAt(a, needle, i) ensures OccursAt(s, needle, i) {
      assert s[i..i + |needle|] == a[i..i + |needle|];
    }
    forall i | 0 <= i <= |b| && OccursAt(b, needle, i) ensures OccursAt(s, needle, |a| + 1 + i) {
      assert s[|a| + 1 + i..|a| + 1 + i + |needle|] == b[i..i + |needle|];
    }
  }

  lemma Straddle(a: string, c: char, b: string, needle: string, i: nat)
    requires needle != "" && c !in needle && OccursAt(a + [c] + b, needle, i)
    ensures Contains(a, needle) || Contains(b, needle)
  {
    var s := a + [c] + b;
    forall p | i <= p < i + |needle| ensures s[p] != c {
      assert s[p] == s[i..i + |needle|][p - i];
    }
    assert s[|a|] == c;
    if i + |needle| <= |a| {
      assert s[i..i + |needle|] == a[i..i + |needle|];
      assert OccursAt(a, needle, i);
    } else if i > |a| {
      var j := i - |a| - 1;
      assert s[i..i + |needle|] == b[j..j + |needle|];
      assert OccursAt(b, needle, j);
    }
  }

  lemma {:induction false} JoinContains(texts: seq<string>, needle: string)
    requires needle != "" && '\n' !in needle
    ensures Contains(Join(texts, "\n"), needle) <==> SomeContains(texts, needle)
  {
    if texts == [] {
      assert !Contains("", needle);
    } else if |texts| == 1 {
      assert Join(texts, "\n") == texts[0];
    } else {
      hide Contains;
      JoinContains(texts[1..], needle);
      ContainsAcross(texts[0], '\n', Join(texts[1..], "\n"), needle);
      SomeContainsConcat([texts[0]], texts[1..], needle);
      assert [texts[0]] + texts[1..] == texts;
      assert SomeContains([texts[0]], needle) <==> Contains([texts[0]][0], needle);
    }
  }

  lemma {:induction false} NonEmptySearch(texts: seq<string>, needle: string)
    requires needle != ""
    ensures SomeContains(NonEmpty(texts), needle) <==> SomeContains(texts, needle)
  {
    if texts != [] {
      var front, t := texts[..|texts| - 1], texts[|texts| - 1];
      NonEmptySearch(front, needle);
      assert front + [t] == texts;
      assert t == "" ==> !Contains(t, needle);
      hide Contains;
      SomeContainsConcat(front, [t], needle);
      SomeContainsConcat(NonEmpty(front), if t == "" then [] else [t], needle);
      assert SomeContains([t], needle) <==> Contains([t][0], needle);
    }
  }

  /** What the search says about a window, and what the joined text says about it. */
  predicate Agree(messages: seq<Message>, needle: string) {
    SomeContains(InboundTexts(messages, |messages|), needle)
    <==> Contains(Join(NonEmpty(InboundTexts(messages, |messages|)), "\n"), needle)
  }

  /** For a needle that is not empty and has no newline, searching the parts and searching the joined text
      agree on every window: joining neither makes nor breaks a match. */
  lemma ScannersAgree(messages: seq<Message>, needle: string)
    requires needle != "" && '\n' !in needle
    ensures Agree(messages, needle)
  {
    hide Contains, InboundTexts;
    var texts := InboundTexts(messages, |messages|);
    NonEmptySearch(texts, needle);
    JoinContains(NonEmpty(texts), needle);
  }

  function Inbound1(text: string): Message {
    Message("inbound", [Part("text", Some(text))])
  }

  lemma {:induction false} TwoInbound(x: string, y: string)
    ensures InboundTexts([Inbound1(x), Inbound1(y)], 2) == [x, y]
  {
    OneText(x);
    OneText(y);
    hide PartTexts;
    var ms := [Inbound1(x), Inbound1(y)];
    assert InboundTexts(ms, 1) == InboundTexts(ms, 0) + [x];
    assert InboundTexts(ms, 2) == InboundTexts(ms, 1) + [y];
  }

  lemma {:induction false} NonEmptyOne(t: string)
    ensures NonEmpty([t]) == if t == "" then [] else [t]
  {
    assert [t][..0] == [];
  }

  lemma {:induction false} TwoNonEmpty(x: string, y: string)
    requires x != "" && y != ""
    ensures NonEmpty([x, y]) == [x, y]
  {
    NonEmptyOne(x);
    NonEmptyOne(y);
    NonEmptyConcat([x], [y]);
    assert [x] + [y] == [x, y];
  }

  lemma {:induction false} TwoJoined(x: string, y: string)
    ensures Join([x, y], "\n") == x + "\n" + y
  {
    assert [x, y][1..] == [y];
    assert Join([y], "\n") == y;
  }

  /** The window of two inbound texts, read back. */
  lemma TwoTexts(x: string, y: string)
    requires x != "" && y != ""
    ensures var ms := [Inbound1(x), Inbound1(y)];
            InboundTexts(ms, 2) == [x, y] && NonEmpty([x, y]) == [x, y] && Join([x, y], "\n") == x + "\n" + y
  {
    TwoInbound(x, y);
    TwoNonEmpty(x, y);
    TwoJoined(x, y);
  }

  lemma {:induction false} OneText(t: string)
    ensures PartTexts(Inbound1(t).parts, |Inbound1(t).parts|) == [t]
  {
    assert PartTexts(Inbound1(t).parts, 0) == [];
  }

  /** A needle with a newline is found in the joined text of two parts that do not contain it. */
  lemma NewlineSplits(needle: string) returns (messages: seq<Message>)
    requires '\n' in needle
    ensures !Agree(messages, needle)
  {
    var k :| 0 <= k < |needle| && needle[k] == '\n';
    var left, right := needle[..k], needle[k + 1..];
    var x, y := if left == "" then "a" else left, if right == "" then "a" else right;
    messages := [Inbound1(x), Inbound1(y)];
    TwoTexts(x, y);
    ShortLacks(x, needle, left);
    ShortLacks(y, needle, right);
    JoinHasNeedle(needle, k, x, y);
    hide InboundTexts, NonEmpty, Join, Contains;
    assert forall j :: 0 <= j < 2 ==> !Contains([x, y][j], needle);
  }

  lemma JoinHasNeedle(needle: string, k: nat, x: string, y: string)
    requires k < |needle| && needle[k] == '\n'
    requires (k > 0 ==> x == needle[..k]) && (k + 1 < |needle| ==> y == needle[k + 1..])
    ensures Contains(x + "\n" + y, needle)
  {
    var s := x + "\n" + y;
    var i := |x| - k;
    if k == 0 {
      i := |x|;
    }
    forall j | 0 <= j < |needle| ensures s[i + j] == needle[j] {}
    assert s[i..i + |needle|] == needle;
    assert OccursAt(s, needle, i);
  }

  lemma ShortLacks(t: string, needle: string, piece: string)
    requires '\n' in needle && |piece| < |needle|
    requires t == (if piece == "" then "a" else piece)
    ensures !Contains(t, needle)
  {
    if piece == "" && |needle| == 1 {
      assert needle[0] == '\n';
      assert "a"[0..1] == "a";
    }
  }

  /** The empty needle is found in every joined text, but in no part when there is none. */
  lemma EmptyNeedleSplits() returns (messages: seq<Message>)
    ensures !Agree(messages, "")
  {
    messages := [Message("outbound", [])];
    assert InboundTexts(messages, 0) == [] && InboundTexts(messages, 1) == [];
    assert OccursAt("", "", 0);
  }

  /** The two scanners agree on every window exactly for the needles that are not empty and have no newline. */
  lemma AgreeIff(needle: string)
    ensures (forall messages :: Agree(messages, needle)) <==> needle != "" && '\n' !in needle
  {
    hide Agree;
    if needle == "" {
      var messages := EmptyNeedleSplits();
    } else if '\n' in needle {
      var messages := NewlineSplits(needle);
    } else {
      forall messages { ScannersAgree(messages, needle); }
    }
  }

  // ---------- Which texts count ----------

  /** A text part of an inbound message, with this text. */
  predicate IsInboundText(messages: seq<Message>, i: int, j: int, t: string) {
    && 0 <= i < |messages| && messages[i].role == "inbound"
    && 0 <= j < |messages[i].parts| && messages[i].parts[j].kind == "text"
    && (messages[i].parts[j].text == Some(t) || (messages[i].parts[j].text.None? && t == ""))
  }

  lemma {:induction false} PartTextsAre(parts: seq<Part>, n: nat, t: string)
    requires n <= |parts|
    ensures t in PartTexts(parts, n) <==> exists j :: 0 <= j < n && parts[j].kind == "text" && TextOf(parts[j]) == t
  {
    hide TextOf;
    if n > 0 {
      PartTextsAre(parts, n - 1, t);
    }
  }

  lemma {:induction false} InboundTextsAre(messages: seq<Message>, n: nat, t: string)
    requires n <= |messages|
    ensures t in InboundTexts(messages, n) <==> exists i, j :: i < n && IsInboundText(messages, i, j, t)
  {
    if n > 0 {
      InboundTextsAre(messages, n - 1, t);
      var m := messages[n - 1];
      PartTextsAre(m.parts, |m.parts|, t);
      hide PartTexts;
      if m.role == "inbound" && t in PartTexts(m.parts, |m.parts|) {
        var j :| 0 <= j < |m.parts| && m.parts[j].kind == "text" && TextOf(m.parts[j]) == t;
        assert IsInboundText(messages, n - 1, j, t);
      }
    }
  }

  /** The search answers true exactly when a text part of an inbound message contains the needle: outbound
      messages and other parts never count. */
  lemma ContainsAnswers(messages: seq<Message>, needle: string)
    requires messages != []
    ensures ContainsSpec(Recent(messages), needle) == Answer(true) <==>
              exists i, j, t :: IsInboundText(messages, i, j, t) && Contains(t, needle)
    ensures ContainsSpec(Recent([]), needle) == HistoryEmpty && ContainsSpec(UnknownPeer, needle) == PeerNotFound
    ensures TextSpec(Recent([])) == HistoryEmpty && TextSpec(UnknownPeer) == PeerNotFound && TextSpec(Recent(messages)).Answer?
  {
    var texts := InboundTexts(messages, |messages|);
    forall t ensures t in texts <==> exists i, j :: IsInboundText(messages, i, j, t) {
      InboundTextsAre(messages, |messages|, t);
    }
    hide InboundTexts, Contains, IsInboundText;
    assert SomeContains(texts, needle) <==> exists t :: t in texts && Contains(t, needle);
  }
}
