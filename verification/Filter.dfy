/** Which context keys may reach the disk: the exclude list and the sensitive patterns, shared by
    `persist` of core/statechart.py and `filter_sensitive` of core/permission.py. */
module Filter {
  import opened Text
  import opened Evaluator

  const SENSITIVE_WORDS: seq<string> := ["token", "secret", "password", "credential"]

  /** The patterns as they are written: a word between two stars. */
  function Pattern(word: string): string {
    "*" + word + "*"
  }

  /** `fnmatch.fnmatchcase` for patterns made of `*`, `?` and ordinary characters. */
  predicate Glob(pattern: string, s: string)
    decreases |pattern| + |s|
  {
    if pattern == "" then s == ""
    else if pattern[0] == '*' then Glob(pattern[1..], s) || (s != "" && Glob(pattern, s[1..]))
    else s != "" && (pattern[0] == '?' || pattern[0] == s[0]) && Glob(pattern[1..], s[1..])
  }

  predicate IsSensitive(key: string) {
    exists i :: 0 <= i < |SENSITIVE_WORDS| && Glob(Lower(Pattern(SENSITIVE_WORDS[i])), Lower(key))
  }

  /** The part of a context that may be written or shown. */
  function Kept(data: map<string, Value>, exclude: seq<string>): map<string, Value> {
    map k | k in data && k !in exclude && !IsSensitive(k) :: data[k]
  }

  /** The loop in `persist`: the exclude list first, then the patterns. */
  method PersistableOf(context: map<string, Value>, exclude: seq<string>) returns (out: map<string, Value>)
    ensures out == Kept(context, exclude)
  {
    out := map[];
    var rest := context.Keys;
    while rest != {}
      invariant rest <= context.Keys
      invariant out == map k | k in context && k !in rest && k !in exclude && !IsSensitive(k) :: context[k]
      decreases rest
    {
      var k :| k in rest;
      rest := rest - {k};
      if k in exclude {
        continue;
      }
      if IsSensitive(k) {
        continue;
      }
      out := out[k := context[k]];
    }
  }

  /** `filter_sensitive`: the patterns first, then the optional exclude list. */
  method FilterSensitive(data: map<string, Value>, extraExclude: Option<seq<string>>) returns (out: map<string, Value>)
    ensures out == Kept(data, if extraExclude.Some? then extraExclude.value else [])
  {
    out := map[];
    var exclude := if extraExclude.Some? then extraExclude.value else [];
    var rest := data.Keys;
    while rest != {}
      invariant rest <= data.Keys
      invariant out == map k | k in data && k !in rest && k !in exclude && !IsSensitive(k) :: data[k]
      decreases rest
    {
      var k :| k in rest;
      rest := rest - {k};
      if IsSensitive(k) {
        continue;
      }
      if extraExclude.Some? && extraExclude.value != [] && k in extraExclude.value {
        continue;
      }
      out := out[k := data[k]];
    }
  }

  // ---------- What the patterns mean ----------

  lemma {:induction false} GlobStar(s: string)
    ensures Glob("*", s)
  {
    if s != "" {
      GlobStar(s[1..]);
    }
    assert "*"[1..] == "";
  }

  predicate Ordinary(w: string) {
    '*' !in w && '?' !in w
  }

  /** A word followed by a star matches exactly the strings that start with the word. */
  lemma {:induction false} GlobPrefix(w: string, s: string)
    requires Ordinary(w)
    ensures Glob(w + "*", s) <==> w <= s
  {
    if w == "" {
      assert w + "*" == "*";
      GlobStar(s);
    } else {
      assert (w + "*")[1..] == w[1..] + "*";
      if s != "" {
        GlobPrefix(w[1..], s[1..]);
        assert w <= s <==> w[0] == s[0] && w[1..] <= s[1..];
      }
    }
  }

  /** A word between stars matches exactly the strings that contain the word. */
  lemma {:induction false} GlobContains(w: string, s: string)
    requires Ordinary(w)
    ensures Glob(Pattern(w), s) <==> Contains(s, w)
  {
    assert Pattern(w)[1..] == w + "*";
    GlobPrefix(w, s);
    if s != "" {
      GlobContains(w, s[1..]);
      ContainsTail(s, w);
    } else {
      assert w <= s <==> OccursAt(s, w, 0);
    }
  }

  lemma ContainsTail(s: string, w: string)
    requires s != ""
    ensures Contains(s, w) <==> w <= s || Contains(s[1..], w)
  {
    assert w <= s <==> OccursAt(s, w, 0);
    forall i | 0 < i <= |s|
      ensures OccursAt(s, w, i) <==> OccursAt(s[1..], w, i - 1)
    {
      if i + |w| <= |s| {
        var a, b := s[i..i + |w|], s[1..][i - 1..i - 1 + |w|];
        assert forall j :: 0 <= j < |w| ==> a[j] == s[i + j] && b[j] == s[i + j];
        assert a == b;
      }
    }
    if Contains(s[1..], w) {
      var i :| 0 <= i <= |s[1..]| && OccursAt(s[1..], w, i);
      assert OccursAt(s, w, i + 1);
    }
  }

  lemma {:induction false} LowerFixed(w: string)
    requires forall i :: 0 <= i < |w| ==> LowerChar(w[i]) == w[i]
    ensures Lower(w) == w
  {
  }

  /** A key is sensitive exactly when its lower-case form contains one of the four words. */
  lemma SensitiveIff(key: string)
    ensures IsSensitive(key) <==>
              || Contains(Lower(key), "token") || Contains(Lower(key), "secret")
              || Contains(Lower(key), "password") || Contains(Lower(key), "credential")
  {
    hide Glob, Contains, Lower;
    forall i | 0 <= i < |SENSITIVE_WORDS|
      ensures Glob(Lower(Pattern(SENSITIVE_WORDS[i])), Lower(key)) <==> Contains(Lower(key), SENSITIVE_WORDS[i])
    {
      LowerFixed(Pattern(SENSITIVE_WORDS[i]));
      GlobContains(SENSITIVE_WORDS[i], Lower(key));
    }
    assert SENSITIVE_WORDS[0] == "token" && SENSITIVE_WORDS[1] == "secret";
    assert SENSITIVE_WORDS[2] == "password" && SENSITIVE_WORDS[3] == "credential";
  }

  lemma {:induction false} LowerConcat(a: string, b: string)
    ensures Lower(a + b) == Lower(a) + Lower(b)
  {
    assert |Lower(a + b)| == |Lower(a) + Lower(b)|;
    forall i | 0 <= i < |a + b| ensures Lower(a + b)[i] == (Lower(a) + Lower(b))[i] {}
  }

  /** A word in whatever mixture of capital and small letters, anywhere in the key, makes it sensitive. */
  lemma MixedCaseIsSensitive(before: string, word: string, after: string)
    requires Lower(word) == "token" || Lower(word) == "secret" || Lower(word) == "password" || Lower(word) == "credential"
    ensures IsSensitive(before + word + after)
  {
    var key := before + word + after;
    LowerConcat(before + word, after);
    LowerConcat(before, word);
    ContainsIff(Lower(key), Lower(word));
    SensitiveIff(key);
    hide IsSensitive, Contains, Lower;
    assert Lower(key) == Lower(before) + Lower(word) + Lower(after);
  }

  /** What is kept, entry by entry: exactly what is not excluded and has no sensitive word, with its value. */
  lemma KeptIff(data: map<string, Value>, exclude: seq<string>, key: string)
    ensures key in Kept(data, exclude) <==>
              && key in data && (forall i :: 0 <= i < |exclude| ==> exclude[i] != key)
              && !Contains(Lower(key), "token") && !Contains(Lower(key), "secret")
              && !Contains(Lower(key), "password") && !Contains(Lower(key), "credential")
    ensures key in Kept(data, exclude) ==> Kept(data, exclude)[key] == data[key]
  {
    SensitiveIff(key);
    hide IsSensitive, Contains, Lower;
  }

  /** Filtering keeps exactly the harmless entries, and filtering again changes nothing. */
  lemma KeptTwice(data: map<string, Value>, exclude: seq<string>)
    ensures Kept(Kept(data, exclude), exclude) == Kept(data, exclude)
  {
  }
}
