// reconstruct_event: the nodes of a trace sorted into process groups.
module Reconstruction {
  import opened Sequences

  function AllIndices(nodes: seq<int>): set<int> {
    set n | n in nodes
  }

  // The definition's indices that occur in the trace.
  function KeepIn(def: seq<int>, all: set<int>): seq<int> {
    if def == [] then []
    else KeepIn(def[..|def| - 1], all) + if def[|def| - 1] in all then [def[|def| - 1]] else []
  }

  // How many definitions list the index.
  function Owners(defs: seq<seq<int>>, idx: int): nat {
    if defs == [] then 0 else Owners(defs[..|defs| - 1], idx) + if idx in defs[|defs| - 1] then 1 else 0
  }

  // The last definition that lists the index.
  function LastOwner(defs: seq<seq<int>>, idx: int): nat
    requires Owners(defs, idx) > 0
  {
    if idx in defs[|defs| - 1] then |defs| - 1 else LastOwner(defs[..|defs| - 1], idx)
  }

  lemma {:induction false} KeepInMembers(def: seq<int>, all: set<int>, idx: int)
    ensures idx in KeepIn(def, all) <==> idx in def && idx in all
  {
    if def != [] {
      var n := |def| - 1;
      KeepInMembers(def[..n], all, idx);
      assert def == def[..n] + [def[n]];
    }
  }

  // A group keeps the order of its definition.
  lemma {:induction false} KeepInOrder(def: seq<int>, all: set<int>, i: nat)
    requires i < |def| && def[i] in all
    ensures KeepIn(def[..i], all) + [def[i]] <= KeepIn(def, all)
  {
    var n := |def| - 1;
    if i < n {
      assert def[..n][..i] == def[..i];
      KeepInOrder(def[..n], all, i);
    }
  }

  lemma {:induction false} OwnersCount(defs: seq<seq<int>>, idx: int)
    ensures Owners(defs, idx) == |set i | 0 <= i < |defs| && idx in defs[i]|
  {
    if defs != [] {
      var n := |defs| - 1;
      OwnersCount(defs[..n], idx);
      var before := set i | 0 <= i < n && idx in defs[i];
      assert before == set i | 0 <= i < |defs[..n]| && idx in defs[..n][i];
      assert (set i | 0 <= i < |defs| && idx in defs[i]) == before + if idx in defs[n] then {n} else {};
    }
  }

  lemma {:induction false} LastOwnerIsLast(defs: seq<seq<int>>, idx: int)
    requires Owners(defs, idx) > 0
    ensures LastOwner(defs, idx) < |defs| && idx in defs[LastOwner(defs, idx)]
    ensures forall j :: LastOwner(defs, idx) < j < |defs| ==> idx !in defs[j]
  {
    var n := |defs| - 1;
    if idx !in defs[n] {
      LastOwnerIsLast(defs[..n], idx);
      assert forall j :: 0 <= j < n ==> defs[..n][j] == defs[j];
    }
  }

  // The assignments after the given definitions: later ones overwrite earlier ones.
  ghost predicate AssignedBy(owner: map<int, nat>, defs: seq<seq<int>>, all: set<int>) {
    && (forall idx :: idx in owner <==> idx in all && Owners(defs, idx) > 0)
    && (forall idx :: idx in owner ==> owner[idx] == LastOwner(defs, idx))
  }

  datatype Groups = Groups(
    processes: seq<seq<int>>,
    owner: map<int, nat>,
    unassigned: set<int>,
    duplicates: set<int>)

  ghost predicate Reconstructs(g: Groups, nodes: seq<int>, defs: seq<seq<int>>) {
    && |g.processes| == |defs|
    && (forall i :: 0 <= i < |defs| ==> g.processes[i] == KeepIn(defs[i], AllIndices(nodes)))
    && AssignedBy(g.owner, defs, AllIndices(nodes))
    && g.unassigned == AllIndices(nodes) - g.owner.Keys
    && g.duplicates == (set idx | idx in AllIndices(nodes) && Owners(defs, idx) > 1)
  }

  // One definition: every node it finds in the trace is assigned to it.
  method AssignProcess(owner: map<int, nat>, found: seq<int>, order: nat) returns (owner': map<int, nat>)
    ensures forall idx :: idx in owner' <==> idx in owner || idx in found
    ensures forall idx :: idx in owner' ==> owner'[idx] == if idx in found then order else owner[idx]
  {
    owner' := owner;
    for k := 0 to |found|
      invariant forall idx :: idx in owner' <==> idx in owner || idx in found[..k]
      invariant forall idx :: idx in owner' ==> owner'[idx] == if idx in found[..k] then order else owner[idx]
    {
      assert found[..k + 1] == found[..k] + [found[k]];
      owner' := owner'[found[k] := order];
    }
    assert found[..|found|] == found;
  }

  method ReconstructEvent(nodes: seq<int>, defs: seq<seq<int>>) returns (g: Groups)
    ensures Reconstructs(g, nodes, defs)
  {
    var all := AllIndices(nodes);
    var owner: map<int, nat>, processes: seq<seq<int>> := map[], [];
    for i := 0 to |defs|
      invariant |processes| == i
      invariant forall j :: 0 <= j < i ==> processes[j] == KeepIn(defs[j], all)
      invariant AssignedBy(owner, defs[..i], all)
    {
      assert defs[..i + 1][..i] == defs[..i];
      var found := KeepIn(defs[i], all);
      forall idx ensures idx in found <==> idx in defs[i] && idx in all {
        KeepInMembers(defs[i], all, idx);
      }
      owner := AssignProcess(owner, found, i);
      processes := processes + [found];
    }
    assert defs[..|defs|] == defs;
    g := Groups(processes, owner, all - owner.Keys, set idx | idx in all && Owners(defs, idx) > 1);
  }

  // ---------------------------------------------------------------- counts

  lemma {:induction false} IndexCount(nodes: seq<int>)
    ensures |AllIndices(nodes)| <= |nodes|
    ensures |AllIndices(nodes)| == |nodes| <==> Distinct(nodes)
  {
    if nodes != [] {
      var n := |nodes| - 1;
      var before := nodes[..n];
      IndexCount(before);
      assert nodes == before + [nodes[n]];
      assert AllIndices(nodes) == AllIndices(before) + {nodes[n]};
      if Distinct(nodes) {
        DistinctInit(nodes);
      }
      if Distinct(before) && nodes[n] !in before {
        DistinctAppend(before, nodes[n]);
      }
    }
  }

  // Assigned and unassigned nodes make up the trace, exactly when no index occurs twice in it.
  lemma CountsAddUp(g: Groups, nodes: seq<int>, defs: seq<seq<int>>)
    requires Reconstructs(g, nodes, defs)
    ensures |g.owner| + |g.unassigned| == |AllIndices(nodes)|
    ensures |g.owner| + |g.unassigned| == |nodes| <==> Distinct(nodes)
  {
    var all := AllIndices(nodes);
    forall idx | idx in g.owner.Keys ensures idx in all {
      assert idx in g.owner;
    }
    assert |all - g.owner.Keys| + |g.owner.Keys| == |all| by {
      assert all == (all - g.owner.Keys) + g.owner.Keys;
    }
    IndexCount(nodes);
  }

  // ---------------------------------------------------------------- partition

  function Flatten(groups: seq<seq<int>>): seq<int> {
    if groups == [] then [] else Flatten(groups[..|groups| - 1]) + groups[|groups| - 1]
  }

  lemma {:induction false} KeepInCount(def: seq<int>, all: set<int>, idx: int)
    requires Distinct(def)
    ensures multiset(KeepIn(def, all))[idx] == if idx in def && idx in all then 1 else 0
  {
    if def != [] {
      var n := |def| - 1;
      DistinctInit(def);
      KeepInCount(def[..n], all, idx);
      assert def == def[..n] + [def[n]];
    }
  }

  lemma {:induction false} FlattenCount(processes: seq<seq<int>>, defs: seq<seq<int>>, all: set<int>, idx: int)
    requires |processes| == |defs|
    requires forall i :: 0 <= i < |defs| ==> processes[i] == KeepIn(defs[i], all) && Distinct(defs[i])
    ensures multiset(Flatten(processes))[idx] == if idx in all then Owners(defs, idx) else 0
  {
    if defs != [] {
      var n := |defs| - 1;
      FlattenCount(processes[..n], defs[..n], all, idx);
      KeepInCount(defs[n], all, idx);
    }
  }

  // If each definition lists distinct indices, the groups partition the trace's nodes exactly
  // when nothing is unassigned and nothing duplicated.
  lemma GroupsPartition(g: Groups, nodes: seq<int>, defs: seq<seq<int>>)
    requires Reconstructs(g, nodes, defs)
    requires forall i :: 0 <= i < |defs| ==> Distinct(defs[i])
    ensures multiset(Flatten(g.processes)) == multiset(AllIndices(nodes))
       <==> g.unassigned == {} && g.duplicates == {}
  {
    var all := AllIndices(nodes);
    var flat := multiset(Flatten(g.processes));
    forall idx ensures flat[idx] == if idx in all then Owners(defs, idx) else 0 {
      FlattenCount(g.processes, defs, all, idx);
    }
    if flat == multiset(all) {
      forall idx | idx in all ensures Owners(defs, idx) == 1 {
        assert flat[idx] == multiset(all)[idx];
      }
      forall idx | idx in all ensures idx !in g.unassigned && idx !in g.duplicates {
        assert idx in g.owner;
      }
      assert g.unassigned == {} && g.duplicates == {};
    }
    if g.unassigned == {} && g.duplicates == {} {
      forall idx | idx in all ensures Owners(defs, idx) == 1 {
        assert idx !in g.unassigned && idx !in g.duplicates;
        assert idx in g.owner;
      }
      forall idx ensures flat[idx] == multiset(all)[idx] {
      }
      assert flat == multiset(all);
    }
  }

  // ---------------------------------------------------------------- the shipped definitions

  function Interval(lo: int, hi: int): (s: seq<int>)
    requires lo <= hi
    ensures forall x :: x in s <==> lo <= x < hi
  {
    var s := seq(hi - lo, i => lo + i);
    assert forall x :: lo <= x < hi ==> x in s by {
      forall x | lo <= x < hi ensures x in s {
        assert s[x - lo] == x;
      }
    }
    s
  }

  const FIRST_DEFS: seq<seq<int>> :=
    [Interval(0, 3), Interval(3, 16), Interval(17, 32), Interval(32, 46), Interval(46, 60), Interval(60, 85)]

  const LAST_DEFS: seq<seq<int>> :=
    [Interval(85, 102), Interval(102, 119), Interval(119, 126),
     [16] + Interval(126, 133) + [135], [133, 134] + Interval(136, 146), Interval(146, 155)]

  const PROCESS_DEFS: seq<seq<int>> := FIRST_DEFS + LAST_DEFS

  lemma OwnersOneMore(defs: seq<seq<int>>, def: seq<int>, idx: int)
    ensures Owners(defs + [def], idx) == Owners(defs, idx) + if idx in def then 1 else 0
  {
    assert (defs + [def])[..|defs|] == defs;
  }

  lemma {:induction false} OwnersConcat(a: seq<seq<int>>, b: seq<seq<int>>, idx: int)
    ensures Owners(a + b, idx) == Owners(a, idx) + Owners(b, idx)
  {
    if b == [] {
      assert a + b == a;
    } else {
      var n := |b| - 1;
      OwnersConcat(a, b[..n], idx);
      OwnersOneMore(a + b[..n], b[n], idx);
      assert a + b == (a + b[..n]) + [b[n]];
    }
  }

  lemma OwnersOfSix(a: seq<int>, b: seq<int>, c: seq<int>, d: seq<int>, e: seq<int>, f: seq<int>, idx: int)
    ensures Owners([a, b, c, d, e, f], idx)
         == (if idx in a then 1 else 0) + (if idx in b then 1 else 0) + (if idx in c then 1 else 0)
            + (if idx in d then 1 else 0) + (if idx in e then 1 else 0) + (if idx in f then 1 else 0)
  {
    OwnersOneMore([], a, idx);
    OwnersOneMore([a], b, idx);
    OwnersOneMore([a, b], c, idx);
    OwnersOneMore([a, b, c], d, idx);
    OwnersOneMore([a, b, c, d], e, idx);
    OwnersOneMore([a, b, c, d, e], f, idx);
    assert [] + [a] == [a] && [a] + [b] == [a, b] && [a, b] + [c] == [a, b, c];
    assert [a, b, c] + [d] == [a, b, c, d] && [a, b, c, d] + [e] == [a, b, c, d, e];
    assert [a, b, c, d, e] + [f] == [a, b, c, d, e, f];
  }

  // The twelve shipped definitions list every index from 0 to 154 once and no other.
  lemma ShippedDefsCoverOnce(idx: int)
    ensures Owners(PROCESS_DEFS, idx) == if 0 <= idx < 155 then 1 else 0
  {
    OwnersConcat(FIRST_DEFS, LAST_DEFS, idx);
    OwnersOfSix(Interval(0, 3), Interval(3, 16), Interval(17, 32), Interval(32, 46), Interval(46, 60),
                Interval(60, 85), idx);
    OwnersOfSix(Interval(85, 102), Interval(102, 119), Interval(119, 126), [16] + Interval(126, 133) + [135],
                [133, 134] + Interval(136, 146), Interval(146, 155), idx);
  }

  // So a trace is reconstructed without gaps or overlaps exactly when it has no node past 154.
  lemma ShippedDefsFit(g: Groups, nodes: seq<int>)
    requires Reconstructs(g, nodes, PROCESS_DEFS)
    ensures g.duplicates == {}
    ensures g.unassigned == {} <==> forall n :: n in nodes ==> 0 <= n < 155
  {
    forall idx ensures Owners(PROCESS_DEFS, idx) == if 0 <= idx < 155 then 1 else 0 {
      ShippedDefsCoverOnce(idx);
    }
    forall n | n in nodes ensures n in g.unassigned <==> !(0 <= n < 155) {
      assert n in AllIndices(nodes);
    }
  }
}
