/** Where a key goes, for keys of any shape: empty, "." and ".." segments, and the store's prefix. */
module Paths {
  import opened Basics
  import opened Checkout
  import opened Text

  // ---- segments that move nothing -----------------------------------------------------------------------------------------

  lemma {:induction false} CleanThen(stack: Path, a: seq<string>, b: seq<string>)
    ensures Clean(stack, a + b) == Clean(Clean(stack, a), b)
    decreases |a|
  {
    if a == [] {
      assert a + b == b;
    } else {
      assert (a + b)[1..] == a[1..] + b;
      if a[0] == "" || a[0] == "." {
        CleanThen(stack, a[1..], b);
      } else if a[0] == ".." {
        CleanThen(if stack == [] then [] else stack[..|stack| - 1], a[1..], b);
      } else {
        CleanThen(stack + [a[0]], a[1..], b);
      }
    }
  }

  // Segments that a path can do without: an empty one, a dot, or a name and the step back out of it.
  predicate Idle(x: seq<string>) {
    || x == [""] || x == ["."]
    || (|x| == 2 && Plain([x[0]]) && x[1] == "..")
  }

  lemma IdleStays(stack: Path, x: seq<string>)
    requires Idle(x)
    ensures Clean(stack, x) == stack
  {
    if |x| == 2 {
      assert Plain([x[0]]) && [x[0]][0] == x[0];
      assert x[1..] == [".."] && [".."][1..] == [];
      assert (stack + [x[0]])[..|stack|] == stack;
    } else {
      assert x[1..] == [];
    }
  }

  predicate Segmented(segments: seq<string>) {
    forall i | 0 <= i < |segments| :: Lacks(segments[i], '/')
  }

  lemma ResolveSegments(base: Path, segments: seq<string>)
    requires Segmented(segments)
    ensures ResolveDest(base, Join(segments, '/')) ==
              var dest := Clean(base, segments); if base <= dest then Some(dest[|base|..]) else None
  {
    if segments == [] {
      IdleStays(base, [""]);
    } else {
      SplitJoin(segments, '/');
    }
  }

  /** Such segments anywhere in a key leave its place as it is. */
  lemma IdleSegments(base: Path, a: seq<string>, x: seq<string>, b: seq<string>)
    requires Segmented(a) && Segmented(x) && Segmented(b) && Idle(x)
    ensures ResolveDest(base, Join(a + x + b, '/')) == ResolveDest(base, Join(a + b, '/'))
  {
    ResolveSegments(base, a + x + b);
    ResolveSegments(base, a + b);
    CleanThen(base, a + x, b);
    CleanThen(base, a, x);
    CleanThen(base, a, b);
    IdleStays(Clean(base, a), x);
  }

  // ---- segments that climb ------------------------------------------------------------------------------------------------

  function Ups(k: nat): seq<string> {
    seq(k, i => "..")
  }

  lemma {:induction false} Climb(stack: Path, k: nat)
    ensures Clean(stack, Ups(k)) == if k <= |stack| then stack[..|stack| - k] else []
    decreases k
  {
    if k > 0 {
      assert Ups(k)[1..] == Ups(k - 1);
      Climb(if stack == [] then [] else stack[..|stack| - 1], k - 1);
    }
  }

  lemma ComesBack(up: Path, back: Path, names: seq<string>)
    ensures up + back <= up + names <==> back <= names
    ensures back <= names ==> (up + names)[|up + back|..] == names[|back|..]
  {
    if back <= names {
      assert up + names == up + back + names[|back|..];
    }
    if up + back <= up + names {
      assert (up + names)[|up|..|up + back|] == back;
      assert (up + names)[|up|..] == names;
    }
  }

  /** A key that climbs out of the cache is refused, unless it comes back in by the way it left. */
  lemma ClimbingKeys(base: Path, k: nat, names: seq<string>)
    requires Plain(names) && Segmented(names)
    ensures var back := if k <= |base| then base[|base| - k..] else base;
            ResolveDest(base, Join(Ups(k) + names, '/')) == if back <= names then Some(names[|back|..]) else None
  {
    var up, back := if k <= |base| then base[..|base| - k] else [], if k <= |base| then base[|base| - k..] else base;
    ResolveSegments(base, Ups(k) + names);
    CleanThen(base, Ups(k), names);
    Climb(base, k);
    CleanPlain(up, names);
    assert base == up + back;
    ComesBack(up, back, names);
  }

  /** These are all there is: any path of segments is, to the cleaning, some climbing and then plain names. */
  lemma {:induction false} ClimbsThenPlain(segments: seq<string>) returns (k: nat, names: seq<string>)
    requires Segmented(segments)
    ensures Plain(names) && Segmented(names)
    ensures forall stack :: Clean(stack, segments) == Clean(stack, Ups(k) + names)
    decreases |segments|
  {
    if segments == [] {
      k, names := 0, [];
      assert Ups(0) + [] == [];
      return;
    }
    var front, last := segments[..|segments| - 1], segments[|segments| - 1];
    assert segments == front + [last];
    k, names := ClimbsThenPlain(front);
    forall stack ensures Clean(stack, segments) == Clean(Clean(stack, Ups(k) + names), [last]) {
      CleanThen(stack, front, [last]);
    }
    k, names := OneMore(k, names, last, segments);
  }

  // One more segment behind them.
  lemma OneMore(k: nat, names: seq<string>, last: string, segments: seq<string>) returns (j: nat, more: seq<string>)
    requires Plain(names) && Segmented(names) && Lacks(last, '/')
    requires forall stack :: Clean(stack, segments) == Clean(Clean(stack, Ups(k) + names), [last])
    ensures Plain(more) && Segmented(more)
    ensures forall stack :: Clean(stack, segments) == Clean(stack, Ups(j) + more)
  {
    j, more := k, names;
    if last == "" || last == "." {
      forall stack ensures Clean(stack, segments) == Clean(stack, Ups(j) + more) {
        IdleStays(Clean(stack, Ups(k) + names), [last]);
      }
    } else if last != ".." {
      more := names + [last];
      forall stack ensures Clean(stack, segments) == Clean(stack, Ups(j) + more) {
        CleanThen(stack, Ups(k) + names, [last]);
        assert Ups(k) + names + [last] == Ups(j) + more;
      }
    } else if names != [] {
      var n := |names| - 1;
      more := names[..n];
      forall stack ensures Clean(stack, segments) == Clean(stack, Ups(j) + more) {
        var x := [names[n], ".."];
        assert Ups(k) + names + [".."] == Ups(k) + more + x;
        CleanThen(stack, Ups(k) + names, [".."]);
        CleanThen(stack, Ups(k) + more, x);
        IdleStays(Clean(stack, Ups(k) + more), x);
      }
    } else {
      j := k + 1;
      forall stack ensures Clean(stack, segments) == Clean(stack, Ups(j) + more) {
        CleanThen(stack, Ups(k) + names, [".."]);
        assert Ups(k) + names + [".."] == Ups(j) + more;
      }
    }
  }

  // ---- the prefix ---------------------------------------------------------------------------------------------------------

  /** The prefix and the slash behind it are cut off a key; a key that goes on otherwise behind the prefix stays whole. */
  lemma PrefixCut(c: Config, rest: string)
    requires c.prefix != "" && c.prefix[|c.prefix| - 1] != '/'
    ensures c.Dest(c.prefix + "/" + rest) == ResolveDest(c.base, rest)
    ensures (rest == "" || rest[0] != '/') ==> c.Dest(c.prefix + rest) == ResolveDest(c.base, c.prefix + rest)
  {
    assert (c.prefix + "/" + rest)[|c.prefix + "/"|..] == rest;
    if rest != "" && rest[0] != '/' {
      assert (c.prefix + rest)[|c.prefix|] == rest[0];
    }
  }

  lemma WholePrefixCut(c: Config, rest: string)
    requires c.prefix == "" || c.prefix[|c.prefix| - 1] == '/'
    ensures c.Dest(c.prefix + rest) == ResolveDest(c.base, rest)
  {
    assert (c.prefix + rest)[|c.prefix|..] == rest;
  }

  /** A key without the prefix stays whole. */
  lemma OtherKey(c: Config, key: string)
    requires !(c.prefix <= key)
    ensures c.Dest(key) == ResolveDest(c.base, key)
  {
  }
}
