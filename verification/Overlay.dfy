/** The overlay merge of core/loader.py: mappings merge key by key, everything else replaces. */
module Overlay {
  import opened Text
  import opened Evaluator

  /** A configuration value: a mapping, or anything the merge treats as one piece (lists included). */
  datatype Node = Leaf(value: Value) | Tree(fields: map<string, Node>)

  /** What the merge of two mappings, or of two values under one key, is. */
  function Merge(base: Node, overlay: Node): Node
    decreases overlay
  {
    if base.Leaf? || overlay.Leaf? then overlay else
    Tree(map k | k in base.fields.Keys + overlay.fields.Keys ::
      if k !in overlay.fields then base.fields[k]
      else if k !in base.fields then overlay.fields[k]
      else Merge(base.fields[k], overlay.fields[k]))
  }

  /** The source's recursion: a copy of the base, filled from the overlay in a loop. */
  method DeepMerge(base: Node, overlay: Node) returns (result: Node)
    requires base.Tree? && overlay.Tree?
    ensures result == Merge(base, overlay)
    decreases overlay
  {
    var fields := base.fields;
    var left := overlay.fields.Keys;
    while left != {}
      invariant left <= overlay.fields.Keys
      invariant fields.Keys == base.fields.Keys + (overlay.fields.Keys - left)
      invariant forall k :: k in fields ==>
                  fields[k] == if k in overlay.fields && k !in left then Merge(base, overlay).fields[k] else base.fields[k]
      decreases left
    {
      var key :| key in left;
      left := left - {key};
      var value := overlay.fields[key];
      if key in fields && fields[key].Tree? && value.Tree? {
        value := DeepMerge(fields[key], value);
      }
      fields := fields[key := value];
    }
    return Tree(fields);
  }

  // ---------- Paths ----------

  /** What stands at a path of keys. */
  function At(n: Node, path: seq<string>): Option<Node> {
    if path == [] then Some(n)
    else if n.Leaf? || path[0] !in n.fields then None
    else At(n.fields[path[0]], path[1..])
  }

  /** The overlay says nothing at the path, and nothing but mappings on the way to it. */
  ghost predicate Silent(overlay: Node, path: seq<string>) {
    At(overlay, path).None? && forall i :: 0 <= i < |path| ==> At(overlay, path[..i]) != None ==> At(overlay, path[..i]).value.Tree?
  }

  lemma {:induction false} SilentStep(overlay: Node, path: seq<string>)
    requires overlay.Tree? && path != [] && path[0] in overlay.fields
    ensures Silent(overlay, path) <==> Silent(overlay.fields[path[0]], path[1..])
  {
    var inner := overlay.fields[path[0]];
    assert At(overlay, path) == At(inner, path[1..]);
    forall i | 0 <= i < |path[1..]|
      ensures At(overlay, path[..i + 1]) == At(inner, path[1..][..i])
    {
      var p := path[..i + 1];
      assert p[0] == path[0] && p[1..] == path[1..][..i];
    }
    if Silent(overlay, path) {
      forall i | 0 <= i < |path[1..]| && At(inner, path[1..][..i]) != None
        ensures At(inner, path[1..][..i]).value.Tree?
      {
        assert At(overlay, path[..i + 1]) == At(inner, path[1..][..i]);
      }
    }
    if Silent(inner, path[1..]) {
      forall i | 0 <= i < |path| && At(overlay, path[..i]) != None
        ensures At(overlay, path[..i]).value.Tree?
      {
        if i > 0 {
          assert At(overlay, path[..i]) == At(inner, path[1..][..i - 1]);
        } else {
          assert path[..0] == [];
        }
      }
    }
  }

  lemma SilentAbsent(overlay: Node, path: seq<string>)
    requires overlay.Tree? && path != [] && path[0] !in overlay.fields
    ensures Silent(overlay, path)
  {
    forall i | 0 < i <= |path| ensures At(overlay, path[..i]) == None {
      assert path[..i][0] == path[0];
    }
    assert path[..|path|] == path;
  }

  lemma LeafIsNotSilent(overlay: Node, path: seq<string>)
    requires overlay.Leaf?
    ensures !Silent(overlay, path)
  {
    if path != [] {
      assert path[..0] == [];
    }
  }

  /** The leaves of a merge, all of them: a leaf stands at a path exactly when the overlay puts it there, or
      the base does and the overlay is silent about that path. */
  lemma {:induction false} MergedLeafIff(base: Node, overlay: Node, path: seq<string>, v: Value)
    ensures At(Merge(base, overlay), path) == Some(Leaf(v)) <==>
              At(overlay, path) == Some(Leaf(v)) || (At(base, path) == Some(Leaf(v)) && Silent(overlay, path))
    decreases |path|
  {
    if overlay.Leaf? {
      LeafIsNotSilent(overlay, path);
    } else if base.Leaf? {
      if path == [] {
        assert At(overlay, path) == Some(overlay);
      }
    } else if path != [] {
      var k := path[0];
      if k !in overlay.fields {
        SilentAbsent(overlay, path);
      } else if k in base.fields {
        SilentStep(overlay, path);
        MergedLeafIff(base.fields[k], overlay.fields[k], path[1..], v);
      }
    }
  }

  /** The mappings of a merge, likewise. */
  lemma {:induction false} MergedTreeIff(base: Node, overlay: Node, path: seq<string>)
    ensures IsTree(At(Merge(base, overlay), path)) <==>
              IsTree(At(overlay, path)) || (IsTree(At(base, path)) && Silent(overlay, path))
    decreases |path|
  {
    if overlay.Leaf? {
      LeafIsNotSilent(overlay, path);
    } else if base.Tree? && path != [] {
      var k := path[0];
      if k !in overlay.fields {
        SilentAbsent(overlay, path);
      } else if k in base.fields {
        SilentStep(overlay, path);
        MergedTreeIff(base.fields[k], overlay.fields[k], path[1..]);
      }
    }
  }

  predicate IsTree(n: Option<Node>) {
    n.Some? && n.value.Tree?
  }

  // ---------- Laws ----------

  /** Merging a value over itself changes nothing. */
  lemma {:induction false} MergeSelf(n: Node)
    ensures Merge(n, n) == n
  {
    if n.Tree? {
      forall k | k in n.fields ensures Merge(n.fields[k], n.fields[k]) == n.fields[k] {
        MergeSelf(n.fields[k]);
      }
    }
  }

  /** Applying an overlay twice is applying it once. */
  lemma {:induction false} MergeTwice(base: Node, overlay: Node)
    ensures Merge(Merge(base, overlay), overlay) == Merge(base, overlay)
    decreases overlay
  {
    if base.Leaf? || overlay.Leaf? {
      MergeSelf(overlay);
    } else {
      var once := Merge(base, overlay);
      forall k | k in overlay.fields
        ensures Merge(once.fields[k], overlay.fields[k]) == once.fields[k]
      {
        if k in base.fields {
          MergeTwice(base.fields[k], overlay.fields[k]);
        } else {
          MergeSelf(overlay.fields[k]);
        }
      }
      assert Merge(once, overlay).fields == once.fields;
    }
  }

  // ---------- When overlays associate ----------

  /** Under a mapping `c`, a mapping `a` would put nothing that `c` lacks. */
  predicate Covered(a: Node, c: Node)
    decreases a
  {
    a.Leaf? || c.Leaf? || forall k :: k in a.fields ==> k in c.fields && Covered(a.fields[k], c.fields[k])
  }

  /** Merging over `a` gives `c` itself exactly when `a` is covered. */
  lemma {:induction false} CoveredIff(a: Node, c: Node)
    ensures Merge(a, c) == c <==> Covered(a, c)
    decreases a
  {
    if a.Tree? && c.Tree? {
      forall k | k in a.fields && k in c.fields
        ensures Merge(a.fields[k], c.fields[k]) == c.fields[k] <==> Covered(a.fields[k], c.fields[k])
      {
        CoveredIff(a.fields[k], c.fields[k]);
      }
      if Merge(a, c) == c {
        forall k | k in a.fields ensures k in c.fields && Covered(a.fields[k], c.fields[k]) {
          assert k in Merge(a, c).fields;
          assert Merge(a, c).fields[k] == Merge(a.fields[k], c.fields[k]);
        }
      }
      if Covered(a, c) {
        assert Merge(a, c).fields == c.fields;
      }
    }
  }

  /** Wherever a piece of `b` stands between a mapping of `a` and a mapping of `c`, and so cuts the one off from
      the other, `a` would have put nothing that `c` lacks. */
  predicate Associates(a: Node, b: Node, c: Node)
    decreases b
  {
    if a.Leaf? || c.Leaf? then true
    else if b.Leaf? then Covered(a, c)
    else forall k :: k in a.fields && k in b.fields && k in c.fields ==> Associates(a.fields[k], b.fields[k], c.fields[k])
  }

  /** Two overlays in a row are one merged overlay exactly under this condition. */
  lemma {:induction false} AssociatesIff(a: Node, b: Node, c: Node)
    ensures Merge(Merge(a, b), c) == Merge(a, Merge(b, c)) <==> Associates(a, b, c)
    decreases b
  {
    if a.Tree? && c.Tree? {
      if b.Leaf? {
        CoveredIff(a, c);
      } else {
        var l, r := Merge(Merge(a, b), c), Merge(a, Merge(b, c));
        assert l.fields.Keys == r.fields.Keys;
        forall k | k in l.fields
          ensures l.fields[k] == r.fields[k] <==>
                    (k in a.fields && k in b.fields && k in c.fields ==> Associates(a.fields[k], b.fields[k], c.fields[k]))
        {
          if k in a.fields && k in b.fields && k in c.fields {
            AssociatesIff(a.fields[k], b.fields[k], c.fields[k]);
          }
        }
        assert l == r <==> forall k :: k in l.fields ==> l.fields[k] == r.fields[k] by {
          if forall k :: k in l.fields ==> l.fields[k] == r.fields[k] { assert l.fields == r.fields; }
        }
      }
    }
  }

  /** So overlays do not associate in general: a scalar between two mappings cuts the first one off. */
  lemma MergeIsNotAssociative(one: Value, two: Value)
    ensures var a, b, c := Tree(map["x" := Tree(map["y" := Leaf(one)])]), Tree(map["x" := Leaf(two)]),
                           Tree(map["x" := Tree(map["z" := Leaf(two)])]);
            Merge(Merge(a, b), c) != Merge(a, Merge(b, c))
  {
    var a, b, c := Tree(map["x" := Tree(map["y" := Leaf(one)])]), Tree(map["x" := Leaf(two)]),
                   Tree(map["x" := Tree(map["z" := Leaf(two)])]);
    AssociatesIff(a, b, c);
    assert "y" in a.fields["x"].fields && "y" !in c.fields["x"].fields;
    assert !Covered(a.fields["x"], c.fields["x"]);
    assert !Associates(a.fields["x"], b.fields["x"], c.fields["x"]);
  }
}
