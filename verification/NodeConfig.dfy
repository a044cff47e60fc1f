/** internal/nodecfg: the layered configuration merge. */
module NodeConfig {
  import opened Basics

  /** A decoded YAML value: a map, or anything else. */
  datatype Value = Leaf(text: string) | Map(entries: map<string, Value>)

  type Doc = map<string, Value>

  // What deepMerge leaves at one key of `over`: its value, unless both sides are maps.
  function MergeAt(base: Doc, over: Doc, k: string): Value
    requires k in over
    decreases Map(over), 0
  {
    if k in base && base[k].Map? && over[k].Map? then
      assert Map(over[k].entries) == over[k];
      Map(Merge(base[k].entries, over[k].entries))
    else over[k]
  }

  function Merge(base: Doc, over: Doc): Doc
    decreases Map(over), 1
  {
    map k | k in base.Keys + over.Keys :: if k in over then MergeAt(base, over, k) else base[k]
  }

  // The merge of only the keys in `done`.
  function MergeSome(base: Doc, over: Doc, done: set<string>): Doc
    requires done <= over.Keys
  {
    map k | k in base.Keys + done :: if k in done then MergeAt(base, over, k) else base[k]
  }

  lemma MergeOneMore(base: Doc, over: Doc, done: set<string>, k: string)
    requires done <= over.Keys && k in over && k !in done
    ensures MergeSome(base, over, done + {k}) == MergeSome(base, over, done)[k := MergeAt(base, over, k)]
    ensures MergeAt(MergeSome(base, over, done), over, k) == MergeAt(base, over, k)
  {
  }

  lemma MergeEnds(base: Doc, over: Doc)
    ensures MergeSome(base, over, {}) == base && MergeSome(base, over, over.Keys) == Merge(base, over)
  {
  }

  method MergeKey(out: Doc, over: Doc, k: string) returns (v: Value)
    requires k in over
    ensures v == MergeAt(out, over, k)
    decreases Map(over), 0
  {
    if k in out && out[k].Map? && over[k].Map? {
      assert Map(over[k].entries) == over[k];
      var merged := DeepMerge(out[k].entries, over[k].entries);
      v := Map(merged);
    } else {
      v := over[k];
    }
  }

  method DeepMerge(base: Doc, over: Doc) returns (out: Doc)
    ensures out == Merge(base, over)
    decreases Map(over), 1
  {
    out := base;
    var todo := over.Keys;
    ghost var done := {};
    MergeEnds(base, over);
    while todo != {}
      invariant todo + done == over.Keys && todo !! done
      invariant out == MergeSome(base, over, done)
      decreases todo
    {
      var k :| k in todo;
      MergeOneMore(base, over, done, k);
      todo, done := todo - {k}, done + {k};
      var v := MergeKey(out, over, k);
      out := out[k := v];
    }
    assert done == over.Keys;
  }

  // ---- the path law -------------------------------------------------------------------------------------------

  function Find(v: Value, path: seq<string>): Option<Value> {
    if path == [] then Some(v)
    else if v.Map? && path[0] in v.entries then Find(v.entries[path[0]], path[1..])
    else None
  }

  predicate IsMapAt(v: Value, path: seq<string>) {
    Find(v, path).Some? && Find(v, path).value.Map?
  }

  // Somewhere on the way to `path`, `over` defines a value where the two are not both maps.
  predicate Overridden(base: Value, over: Value, path: seq<string>) {
    exists i | 0 < i <= |path| :: Find(over, path[..i]).Some? && !(IsMapAt(base, path[..i]) && IsMapAt(over, path[..i]))
  }

  lemma FindStep(v: Value, k: string, rest: seq<string>)
    requires v.Map? && k in v.entries
    ensures Find(v, [k] + rest) == Find(v.entries[k], rest)
  {
    assert ([k] + rest)[1..] == rest;
  }

  lemma OverriddenStep(base: Value, over: Value, path: seq<string>)
    requires base.Map? && over.Map? && path != []
    requires path[0] in base.entries && path[0] in over.entries
    requires base.entries[path[0]].Map? && over.entries[path[0]].Map?
    ensures Overridden(base, over, path) <==> Overridden(base.entries[path[0]], over.entries[path[0]], path[1..])
  {
    var k, b, o := path[0], base.entries[path[0]], over.entries[path[0]];
    forall i | 0 < i <= |path|
      ensures Find(base, path[..i]) == Find(b, path[1..][..i - 1]) && Find(over, path[..i]) == Find(o, path[1..][..i - 1])
    {
      assert path[..i] == [k] + path[1..][..i - 1];
      FindStep(base, k, path[1..][..i - 1]);
      FindStep(over, k, path[1..][..i - 1]);
    }
    if i :| 0 < i <= |path| && Find(over, path[..i]).Some? && !(IsMapAt(base, path[..i]) && IsMapAt(over, path[..i])) {
      var j := i - 1;
      assert path[1..][..0] == [];
      assert 0 < j;
      assert Find(o, path[1..][..j]).Some?;
    }
    if j :| 0 < j <= |path[1..]| && Find(o, path[1..][..j]).Some? && !(IsMapAt(b, path[1..][..j]) && IsMapAt(o, path[1..][..j])) {
      assert Find(over, path[..j + 1]).Some?;
    }
  }

  /** The path law, on arbitrarily nested documents: at every path the merged value is `over`'s where `over`
      overrides on the way, `base`'s where `over` is silent, and the merge of both maps otherwise. */
  lemma {:induction false} PathLaw(base: Doc, over: Doc, path: seq<string>)
    ensures var b, o, m := Map(base), Map(over), Map(Merge(base, over));
            && (Overridden(b, o, path) ==> Find(m, path) == Find(o, path))
            && (!Overridden(b, o, path) && Find(o, path).None? ==> Find(m, path) == Find(b, path))
            && (!Overridden(b, o, path) && Find(o, path).Some? ==>
                  && IsMapAt(b, path) && IsMapAt(o, path)
                  && Find(m, path) == Some(Map(Merge(Find(b, path).value.entries, Find(o, path).value.entries))))
    decreases |path|
  {
    if path != [] {
      var k, b, o := path[0], Map(base), Map(over);
      if k in over && k in base && base[k].Map? && over[k].Map? {
        OverriddenStep(b, o, path);
        PathLaw(base[k].entries, over[k].entries, path[1..]);
      } else if k in over {
        assert path[..1] == [k];
        FindStep(o, k, []);
        if k in base { FindStep(b, k, []); }
        assert [k] + [] == [k];
        assert Find(o, path[..1]) == Some(over[k]) && !(IsMapAt(b, path[..1]) && IsMapAt(o, path[..1]));
        assert Overridden(b, o, path);
      } else {
        forall i | 0 < i <= |path| ensures Find(o, path[..i]).None? {
          assert path[..i][0] == k;
        }
      }
    }
  }

  // ---- what follows from it ---------------------------------------------------------------------------------------

  /** Merging a document with itself changes nothing. */
  lemma {:induction false} MergeSelf(d: Doc)
    ensures Merge(d, d) == d
    decreases Map(d)
  {
    forall k | k in d ensures Merge(d, d)[k] == d[k] {
      if d[k].Map? {
        MergeSelf(d[k].entries);
      }
    }
  }

  /** The same overlay twice is the overlay once. */
  lemma {:induction false} MergeTwice(base: Doc, over: Doc)
    ensures Merge(Merge(base, over), over) == Merge(base, over)
    decreases Map(over)
  {
    var once := Merge(base, over);
    forall k | k in once ensures Merge(once, over)[k] == once[k] {
      if k in over && once[k].Map? && over[k].Map? {
        if k in base && base[k].Map? {
          MergeTwice(base[k].entries, over[k].entries);
        } else {
          MergeSelf(over[k].entries);
        }
      }
    }
  }

  // ---- a third layer --------------------------------------------------------------------------------------------

  // Everything `base` holds, `over` defines, all the way down.
  predicate Covered(base: Doc, over: Doc)
    decreases Map(over), 1
  {
    forall k | k in base :: k in over && CoveredAt(base, over, k)
  }

  predicate CoveredAt(base: Doc, over: Doc, k: string)
    requires k in base && k in over
    decreases Map(over), 0
  {
    base[k].Map? && over[k].Map? ==> (assert Map(over[k].entries) == over[k]; Covered(base[k].entries, over[k].entries))
  }

  lemma {:induction false} AbsorbsAt(base: Doc, over: Doc, k: string)
    requires k in base && k in over
    ensures Merge(base, over)[k] == over[k] <==> CoveredAt(base, over, k)
    decreases Map(over), 0
  {
    assert Merge(base, over)[k] == MergeAt(base, over, k);
    if base[k].Map? && over[k].Map? {
      assert Map(over[k].entries) == over[k];
      MergeAbsorbs(base[k].entries, over[k].entries);
    }
  }

  /** A merge changes nothing of its overlay exactly when the overlay defines all the base holds. */
  lemma {:induction false} MergeAbsorbs(base: Doc, over: Doc)
    ensures Merge(base, over) == over <==> Covered(base, over)
    decreases Map(over), 1
  {
    var m := Merge(base, over);
    forall k | k in base && k in over ensures m[k] == over[k] <==> CoveredAt(base, over, k) {
      AbsorbsAt(base, over, k);
    }
    if Covered(base, over) {
      assert m.Keys == over.Keys;
      forall k | k in over ensures m[k] == over[k] {
        assert m[k] == MergeAt(base, over, k);
      }
    }
    if m == over {
      forall k | k in base ensures k in over {
        assert k in m;
      }
    }
  }

  // Some key, here or below, where the middle layer stands between two maps and the merge of the two shows.
  predicate Clash(a: Doc, b: Doc, c: Doc)
    decreases Map(c), 1
  {
    exists k | k in c :: ClashAt(a, b, c, k)
  }

  predicate ClashAt(a: Doc, b: Doc, c: Doc, k: string)
    requires k in c
    decreases Map(c), 0
  {
    && k in a && k in b && a[k].Map? && c[k].Map?
    && (assert Map(c[k].entries) == c[k];
        if b[k].Map? then Clash(a[k].entries, b[k].entries, c[k].entries) else !Covered(a[k].entries, c[k].entries))
  }

  lemma {:induction false} SameAt(a: Doc, b: Doc, c: Doc, k: string)
    requires k in c
    ensures Merge(Merge(a, b), c)[k] == Merge(a, Merge(b, c))[k] <==> !ClashAt(a, b, c, k)
    decreases Map(c), 0
  {
    if k in a && k in b && a[k].Map? && c[k].Map? {
      assert Map(c[k].entries) == c[k];
      if b[k].Map? {
        MergeOrder(a[k].entries, b[k].entries, c[k].entries);
      } else {
        MergeAbsorbs(a[k].entries, c[k].entries);
      }
    }
  }

  // A key the last layer is silent on.
  lemma SameBelow(a: Doc, b: Doc, c: Doc, k: string)
    requires k !in c && (k in a || k in b)
    ensures Merge(Merge(a, b), c)[k] == Merge(a, Merge(b, c))[k]
  {
  }

  lemma {:induction false} MergeOrder(a: Doc, b: Doc, c: Doc)
    ensures Merge(Merge(a, b), c) == Merge(a, Merge(b, c)) <==> !Clash(a, b, c)
    decreases Map(c), 1
  {
    var left, right := Merge(Merge(a, b), c), Merge(a, Merge(b, c));
    assert left.Keys == right.Keys;
    forall k | k in c ensures left[k] == right[k] <==> !ClashAt(a, b, c, k) {
      SameAt(a, b, c, k);
    }
    forall k | k in left && k !in c ensures left[k] == right[k] {
      SameBelow(a, b, c, k);
    }
    SameMaps(left, right);
  }

  lemma SameMaps(left: Doc, right: Doc)
    requires left.Keys == right.Keys
    ensures left == right <==> forall k | k in left :: left[k] == right[k]
  {
  }

  // At this path `a` and `c` hold maps, `b` something else, and `a` something that `c` does not define.
  predicate Shields(a: Value, b: Value, c: Value, path: seq<string>) {
    && IsMapAt(a, path) && IsMapAt(c, path) && Find(b, path).Some? && !IsMapAt(b, path)
    && !Covered(Find(a, path).value.entries, Find(c, path).value.entries)
  }

  lemma ShieldStep(a: Doc, b: Doc, c: Doc, k: string, rest: seq<string>)
    requires k in a && k in b && k in c
    ensures Shields(Map(a), Map(b), Map(c), [k] + rest) <==> Shields(a[k], b[k], c[k], rest)
  {
    FindStep(Map(a), k, rest);
    FindStep(Map(b), k, rest);
    FindStep(Map(c), k, rest);
  }

  lemma {:induction false} ClashPath(a: Doc, b: Doc, c: Doc) returns (path: seq<string>)
    requires Clash(a, b, c)
    ensures Shields(Map(a), Map(b), Map(c), path)
    decreases Map(c)
  {
    var k :| k in c && ClashAt(a, b, c, k);
    assert Map(c[k].entries) == c[k] && Map(a[k].entries) == a[k];
    if b[k].Map? {
      assert Map(b[k].entries) == b[k];
      var rest := ClashPath(a[k].entries, b[k].entries, c[k].entries);
      path := [k] + rest;
      ShieldStep(a, b, c, k, rest);
    } else {
      path := [k];
      assert [k] + [] == [k];
      ShieldStep(a, b, c, k, []);
    }
  }

  lemma {:induction false} PathClash(a: Doc, b: Doc, c: Doc, path: seq<string>)
    requires Shields(Map(a), Map(b), Map(c), path)
    ensures Clash(a, b, c)
    decreases |path|
  {
    var k, rest := path[0], path[1..];
    assert path == [k] + rest;
    ShieldStep(a, b, c, k, rest);
    if rest != [] {
      assert Map(a[k].entries) == a[k] && Map(b[k].entries) == b[k] && Map(c[k].entries) == c[k];
      PathClash(a[k].entries, b[k].entries, c[k].entries, rest);
    }
    assert ClashAt(a, b, c, k);
  }

  /** Three layers merge alike in either order exactly when no value of the middle one that is not a map stands, at
      any path, between two maps of which the first holds something the last does not define. */
  lemma ThreeLayers(a: Doc, b: Doc, c: Doc)
    ensures Merge(Merge(a, b), c) == Merge(a, Merge(b, c)) <==> !exists path :: Shields(Map(a), Map(b), Map(c), path)
  {
    MergeOrder(a, b, c);
    if Clash(a, b, c) {
      var path := ClashPath(a, b, c);
    }
    if path :| Shields(Map(a), Map(b), Map(c), path) {
      PathClash(a, b, c, path);
    }
  }
}
