/** internal/agent and internal/placement: one GitOps pass per node, and a fleet of them. */
module Agent {
  import opened Ordering

  /** placement.yml: the nodes each cadre is placed on. */
  type Placement = map<string, seq<string>>

  function AssignedSet(p: Placement, node: string): set<string> {
    set c | c in p && node in p[c]
  }

  method Assigned(p: Placement, node: string) returns (out: seq<string>)
    ensures out == Listing(AssignedSet(p, node))
  {
    out := Collect(p.Keys, c requires c in p => node in p[c]);
    assert AssignedSet(p, node) == set c | c in p.Keys && node in p[c];
    SortLists(out, AssignedSet(p, node));
    out := Sort(out);
  }

  /** What befalls a pass: Apply of a cadre saves its state or fails first; the managed cadres can be listed or not;
      Remove drops the state or refuses. */
  datatype Luck = Luck(applies: set<string>, listed: bool, refuses: set<string>)

  // The managed set (the persisted state files) after a pass.
  function PassManaged(managed: set<string>, placed: set<string>, luck: Luck): set<string> {
    var applied := managed + (placed * luck.applies);
    set c | c in applied && (c in placed || !luck.listed || c in luck.refuses)
  }

  datatype Status = Status(applied: seq<(string, bool)>, removed: seq<string>, ok: bool)

  class Node {
    var managed: set<string>

    // applyOne: the state file is written last, so a failure leaves the managed set alone.
    method ApplyOne(name: string, luck: Luck) returns (ok: bool)
      modifies this
      ensures ok == (name in luck.applies)
      ensures managed == if ok then old(managed) + {name} else old(managed)
    {
      ok := name in luck.applies;
      if ok {
        managed := managed + {name};
      }
    }

    method Remove(name: string, luck: Luck)
      modifies this
      ensures managed == if name in luck.refuses then old(managed) else old(managed) - {name}
    {
      if name !in luck.refuses {
        managed := managed - {name};
      }
    }

    /** One pass: apply what is assigned, going on after a failure; then remove the managed rest, if it can be listed. */
    method Run(placement: Placement, node: string, luck: Luck) returns (st: Status)
      modifies this
      ensures managed == PassManaged(old(managed), AssignedSet(placement, node), luck)
      ensures st.ok <==> AssignedSet(placement, node) <= luck.applies && luck.listed
      ensures forall c :: c in st.removed <==>
                && luck.listed && c in old(managed) + (AssignedSet(placement, node) * luck.applies)
                && c !in AssignedSet(placement, node)
      ensures |st.applied| == |Listing(AssignedSet(placement, node))|
      ensures forall i | 0 <= i < |st.applied| ::
                st.applied[i] == (Listing(AssignedSet(placement, node))[i], Listing(AssignedSet(placement, node))[i] in luck.applies)
    {
      var placed := Assigned(placement, node);
      ghost var want, before := AssignedSet(placement, node), managed;
      ListingLists(want);
      var applied, failed := [], false;
      for i := 0 to |placed|
        invariant |applied| == i && forall j | 0 <= j < i :: applied[j] == (placed[j], placed[j] in luck.applies)
        invariant managed == before + set j | 0 <= j < i && placed[j] in luck.applies :: placed[j]
        invariant failed <==> exists j | 0 <= j < i :: placed[j] !in luck.applies
      {
        var ok := ApplyOne(placed[i], luck);
        applied := applied + [(placed[i], ok)];
        failed := failed || !ok;
      }
      assert managed == before + (want * luck.applies);
      if !luck.listed {
        return Status(applied, [], false);
      }
      var names := Collect(managed, c => c !in placed);
      ghost var listed := managed;
      for i := 0 to |names|
        invariant managed == listed - set j | 0 <= j < i && names[j] !in luck.refuses :: names[j]
      {
        Remove(names[i], luck);
      }
      assert forall c :: c in names <==> c in listed && c !in want;
      st := Status(applied, names, !failed);
    }
  }

  /** A pass whose removals succeed leaves exactly what it kept of the managed set and what it applied. */
  lemma PassLaw(managed: set<string>, placed: set<string>, luck: Luck)
    requires luck.listed && luck.refuses == {}
    ensures PassManaged(managed, placed, luck) == (managed * placed) + (placed * luck.applies)
  {
  }

  // ---- the fleet ------------------------------------------------------------------------------------------------

  /** A pass of one node on one revision of the placement. */
  datatype Event = Event(node: string, placement: Placement, luck: Luck)

  type Fleet = map<string, set<string>>

  function ManagedOn(f: Fleet, node: string): set<string> {
    if node in f then f[node] else {}
  }

  function After(f: Fleet, run: seq<Event>): Fleet {
    if run == [] then f
    else
      var g, e := After(f, run[..|run| - 1]), run[|run| - 1];
      g[e.node := PassManaged(ManagedOn(g, e.node), AssignedSet(e.placement, e.node), e.luck)]
  }

  // The node's last pass was on this revision, applied everything, and removed everything it tried to.
  predicate Settled(run: seq<Event>, node: string, p: Placement) {
    exists i | 0 <= i < |run| ::
      && run[i].node == node && run[i].placement == p
      && AssignedSet(p, node) <= run[i].luck.applies && run[i].luck.listed && run[i].luck.refuses == {}
      && forall j | i < j < |run| :: run[j].node != node
  }

  lemma {:induction false} NodeConverges(f: Fleet, run: seq<Event>, node: string, p: Placement)
    requires Settled(run, node, p)
    ensures ManagedOn(After(f, run), node) == AssignedSet(p, node)
    decreases |run|
  {
    var i :| 0 <= i < |run| && run[i].node == node && run[i].placement == p
          && AssignedSet(p, node) <= run[i].luck.applies && run[i].luck.listed && run[i].luck.refuses == {}
          && forall j | i < j < |run| :: run[j].node != node;
    var e, earlier := run[|run| - 1], run[..|run| - 1];
    if i == |run| - 1 {
      PassLaw(ManagedOn(After(f, earlier), node), AssignedSet(p, node), e.luck);
    } else {
      assert earlier[i] == run[i];
      NodeConverges(f, earlier, node, p);
    }
  }

  /** Placement convergence: once every node's last pass was on one revision with all applies succeeding, a cadre
      is managed on a node exactly when that revision places it there, whatever came before and in whatever
      order the nodes ran. */
  lemma FleetConverges(f: Fleet, run: seq<Event>, nodes: set<string>, p: Placement)
    requires forall n | n in nodes :: Settled(run, n, p)
    ensures forall n, c | n in nodes :: c in ManagedOn(After(f, run), n) <==> c in p && n in p[c]
  {
    forall n | n in nodes ensures ManagedOn(After(f, run), n) == AssignedSet(p, n) {
      NodeConverges(f, run, n, p);
    }
  }
}
