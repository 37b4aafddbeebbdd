/** The common-input-ownership heuristic: addresses spent together in one
    transaction are put in one cluster. Clusters are kept in a map from
    cluster id to member set, with a reverse lookup from address to id, a
    set of known addresses and a counter for fresh ids. */
module Clustering {
  import opened Common

  // ---------------------------------------------------------------------
  // Sorted lists of cluster ids

  predicate StrictlySorted(s: seq<nat>)
  {
    forall i, j :: 0 <= i < j < |s| ==> s[i] < s[j]
  }

  /** Inserts `x` into a strictly sorted list unless it is already there. */
  function InsertId(x: nat, s: seq<nat>): (r: seq<nat>)
    requires StrictlySorted(s)
    ensures StrictlySorted(r)
    ensures forall y :: y in r <==> y in s || y == x
  {
    if |s| == 0 then [x]
    else if x < s[0] then [x] + s
    else if x == s[0] then s
    else
      var t := InsertId(x, s[1..]);
      var r := [s[0]] + t;
      assert forall y :: y in s <==> y == s[0] || y in s[1..] by { assert s == [s[0]] + s[1..]; }
      forall i, j | 0 <= i < j < |r| ensures r[i] < r[j] {
        if i == 0 {
          assert r[j] in t;
        } else {
          assert r[i] == t[i - 1] && r[j] == t[j - 1];
        }
      }
      r
  }

  /** The ids of the clusters the known addresses of `inputs` belong to,
      once each and in increasing order (`sorted(list(set(...)))`). */
  function TouchedIds(lookup: map<string, nat>, inputs: seq<string>): (r: seq<nat>)
    ensures StrictlySorted(r)
    ensures forall x :: x in inputs && x in lookup ==> lookup[x] in r
    ensures forall d :: d in r ==> exists x :: x in inputs && x in lookup && lookup[x] == d
  {
    if |inputs| == 0 then []
    else
      var p := inputs[..|inputs| - 1];
      var x := inputs[|inputs| - 1];
      var t := TouchedIds(lookup, p);
      assert forall y :: y in inputs <==> y in p || y == x;
      if x in lookup then InsertId(lookup[x], t) else t
  }

  lemma StrictlySortedDistinct(s: seq<nat>)
    requires StrictlySorted(s)
    ensures Distinct(s)
    ensures forall d :: d in s ==> s[0] <= d
  {
  }

  /** Every touched id is the lookup of some address, so it is a cluster id
      wherever the lookup only names cluster ids. */
  lemma TouchedAreClusters(lookup: map<string, nat>, clusters: map<nat, set<string>>, inputs: seq<string>)
    requires forall x :: x in lookup ==> lookup[x] in clusters
    ensures forall j :: 0 <= j < |TouchedIds(lookup, inputs)| ==> TouchedIds(lookup, inputs)[j] in clusters
  {
    var n := TouchedIds(lookup, inputs);
    forall j | 0 <= j < |n| ensures n[j] in clusters {
      assert n[j] in n;
    }
  }

  lemma ElementsSnoc(s: seq<nat>, x: nat)
    ensures Elements(s + [x]) == Elements(s) + {x}
  {
    assert forall y :: y in s + [x] <==> y in s || y == x;
  }

  // ---------------------------------------------------------------------
  // The state, as a value

  /** The four fields of the structure. */
  datatype Heuristic = Heuristic(clusters: map<nat, set<string>>, knownNodes: set<string>,
                                 clusterLookUp: map<string, nat>, clusterIndex: nat)

  /** The four fields agree: the known addresses are the keys of the lookup,
      every known address lies in the cluster the lookup names, every member
      of a cluster is looked up to that cluster, and every id is below the
      counter. */
  ghost predicate Consistent(h: Heuristic)
  {
    h.knownNodes == h.clusterLookUp.Keys
    && (forall x :: x in h.clusterLookUp ==> h.clusterLookUp[x] in h.clusters && x in h.clusters[h.clusterLookUp[x]])
    && (forall c, x :: c in h.clusters && x in h.clusters[c] ==> x in h.clusterLookUp && h.clusterLookUp[x] == c)
    && (forall c :: c in h.clusters ==> c < h.clusterIndex)
  }

  /** Consistency makes the clusters pairwise disjoint. */
  lemma ConsistentDisjoint(h: Heuristic)
    requires Consistent(h)
    ensures forall c, d :: c in h.clusters && d in h.clusters && c != d ==> h.clusters[c] * h.clusters[d] == {}
  {
    forall c, d | c in h.clusters && d in h.clusters && c != d
      ensures h.clusters[c] * h.clusters[d] == {}
    {
      forall x | x in h.clusters[c] ensures x !in h.clusters[d] {
        assert h.clusterLookUp[x] == c;
      }
    }
  }

  /** The union of the member sets of those `ids` that are cluster ids. */
  function Absorbed(cl: map<nat, set<string>>, ids: seq<nat>): (r: set<string>)
    ensures forall k :: 0 <= k < |ids| && ids[k] in cl ==> cl[ids[k]] <= r
    ensures forall x :: x in r ==> exists k :: 0 <= k < |ids| && ids[k] in cl && x in cl[ids[k]]
  {
    if |ids| == 0 then {}
    else
      var last := if ids[|ids| - 1] in cl then cl[ids[|ids| - 1]] else {};
      Absorbed(cl, ids[..|ids| - 1]) + last
  }

  /** `lookup` with every address of `members` pointed at `target`. */
  function Redirect(lookup: map<string, nat>, members: set<string>, target: nat): (r: map<string, nat>)
    ensures r.Keys == lookup.Keys + members
  {
    map x | x in lookup.Keys + members :: if x in members then target else lookup[x]
  }

  /** `lookup` with every address of `inputs` added and pointed at `c`. */
  function Assign(lookup: map<string, nat>, inputs: seq<string>, c: nat): (r: map<string, nat>)
    ensures r.Keys == lookup.Keys + Elements(inputs)
  {
    map x | x in lookup.Keys + Elements(inputs) :: if x in inputs then c else lookup[x]
  }

  /** One round of `_merge_clusters`' outer loop: the members of cluster `i`
      move into cluster `target`, their lookup follows, and `i` is deleted. */
  function MergeOne(h: Heuristic, target: nat, i: nat): Heuristic
    requires target in h.clusters && i in h.clusters
  {
    h.(clusters := h.clusters[target := h.clusters[target] + h.clusters[i]] - {i},
       clusterLookUp := Redirect(h.clusterLookUp, h.clusters[i], target))
  }

  /** What `_merge_clusters(n)` leaves behind: cluster `n[0]` holds the
      union of all the clusters `n`, the others are deleted, and the members
      of the deleted clusters are looked up to `n[0]`. */
  function Merge(h: Heuristic, n: seq<nat>): Heuristic
    requires |n| >= 1
  {
    h.(clusters := (h.clusters - Elements(n[1..]))[n[0] := Absorbed(h.clusters, n)],
       clusterLookUp := Redirect(h.clusterLookUp, Absorbed(h.clusters, n[1..]), n[0]))
  }

  /** What `_inputs_to_cluster(inputs, c)` leaves behind. */
  function AddInputs(h: Heuristic, inputs: seq<string>, c: nat): Heuristic
    requires c in h.clusters
  {
    h.(clusters := h.clusters[c := h.clusters[c] + Elements(inputs)],
       knownNodes := h.knownNodes + Elements(inputs),
       clusterLookUp := Assign(h.clusterLookUp, inputs, c))
  }

  /** What `_create_entry(inputs)` leaves behind; its id is the old counter. */
  function NewEntry(h: Heuristic, inputs: seq<string>): Heuristic
  {
    h.(clusters := h.clusters[h.clusterIndex := Elements(inputs)],
       knownNodes := h.knownNodes + Elements(inputs),
       clusterLookUp := Assign(h.clusterLookUp, inputs, h.clusterIndex),
       clusterIndex := h.clusterIndex + 1)
  }

  datatype Outcome = Outcome(state: Heuristic, id: nat)

  /** What `handle_inputs(inputs)` leaves behind and returns. */
  function Handle(h: Heuristic, inputs: seq<string>): Outcome
    requires forall x :: x in h.clusterLookUp ==> h.clusterLookUp[x] in h.clusters
  {
    var n := TouchedIds(h.clusterLookUp, inputs);
    if |n| == 0 then Outcome(NewEntry(h, inputs), h.clusterIndex)
    else
      TouchedAreClusters(h.clusterLookUp, h.clusters, inputs);
      var merged := if |n| > 1 then Merge(h, n) else h;
      assert n[0] in merged.clusters by {
        if |n| > 1 { assert n[0] !in n[1..] by { StrictlySortedDistinct(n); } }
      }
      Outcome(AddInputs(merged, inputs, n[0]), n[0])
  }

  // ---------------------------------------------------------------------
  // Lemmas about the state transformers

  lemma AbsorbedSnoc(cl: map<nat, set<string>>, s: seq<nat>, i: nat)
    requires i in cl
    ensures Absorbed(cl, s + [i]) == Absorbed(cl, s) + cl[i]
  {
    assert (s + [i])[..|s|] == s;
  }

  lemma RedirectTwice(lookup: map<string, nat>, a: set<string>, b: set<string>, target: nat)
    ensures Redirect(Redirect(lookup, a, target), b, target) == Redirect(lookup, a + b, target)
  {
  }

  lemma RedirectNone(lookup: map<string, nat>, target: nat)
    ensures Redirect(lookup, {}, target) == lookup
  {
  }

  /** Redirecting one more address: one round of the inner loop. */
  lemma RedirectAdd(lookup: map<string, nat>, members: set<string>, j: string, target: nat)
    ensures Redirect(lookup, members, target)[j := target] == Redirect(lookup, members + {j}, target)
  {
  }

  /** `Merge` of a single cluster id has nothing to merge. */
  lemma MergeFirst(h: Heuristic, c: nat)
    requires c in h.clusters
    ensures Merge(h, [c]).clusters == h.clusters
    ensures Merge(h, [c]).clusterLookUp == Redirect(h.clusterLookUp, {}, c)
  {
    assert [c][1..] == [] && [c][..0] == [];
    assert Elements([c][1..]) == {};
    assert Absorbed(h.clusters, [c]) == h.clusters[c];
    assert Absorbed(h.clusters, [c][1..]) == {};
    assert (h.clusters - {})[c := h.clusters[c]] == h.clusters;
  }

  /** The slices of a list of distinct ids that one merge round touches. */
  lemma DistinctPrefix(n: seq<nat>, k: nat)
    requires 1 <= k < |n| && Distinct(n)
    ensures n[..k + 1][1..] == n[1..k] + [n[k]] && n[..k][1..] == n[1..k]
    ensures n[..k + 1] == n[..k] + [n[k]] && n[..k][0] == n[0] && n[..k + 1][0] == n[0]
    ensures n[k] !in Elements(n[1..k]) && n[0] !in Elements(n[1..k] + [n[k]]) && n[k] != n[0]
  {
    var p, x := n[1..k], n[k];
    forall j | 0 <= j < |p| ensures p[j] != x { assert p[j] == n[j + 1]; }
    forall j | 0 <= j < |p| + 1 ensures (p + [x])[j] != n[0] { assert (p + [x])[j] == n[j + 1]; }
  }

  /** Deleting one more id and growing the target is one merge round on maps. */
  lemma MapMergeStep(cl: map<nat, set<string>>, e: set<nat>, x: nat, target: nat, a: set<string>)
    requires x in cl && x !in e && target !in e && target != x
    ensures var mc := (cl - e)[target := a];
      (cl - (e + {x}))[target := a + cl[x]] == mc[target := mc[target] + mc[x]] - {x}
  {
  }

  lemma MergeStepClusters(h: Heuristic, n: seq<nat>, k: nat)
    requires 1 <= k < |n| && Distinct(n)
    requires forall j :: 0 <= j < |n| ==> n[j] in h.clusters
    ensures n[0] in Merge(h, n[..k]).clusters && n[k] in Merge(h, n[..k]).clusters
    ensures Merge(h, n[..k + 1]).clusters == MergeOne(Merge(h, n[..k]), n[0], n[k]).clusters
  {
    DistinctPrefix(n, k);
    var p, q, x := n[1..k], n[..k], n[k];
    ElementsSnoc(p, x);
    AbsorbedSnoc(h.clusters, q, x);
    MapMergeStep(h.clusters, Elements(p), x, n[0], Absorbed(h.clusters, q));
  }

  lemma MergeStepLookup(h: Heuristic, n: seq<nat>, k: nat)
    requires 1 <= k < |n| && Distinct(n)
    requires forall j :: 0 <= j < |n| ==> n[j] in h.clusters
    ensures n[0] in Merge(h, n[..k]).clusters && n[k] in Merge(h, n[..k]).clusters
    ensures Merge(h, n[..k + 1]).clusterLookUp == Redirect(Merge(h, n[..k]).clusterLookUp, h.clusters[n[k]], n[0])
  {
    MergeStepClusters(h, n, k);
    DistinctPrefix(n, k);
    var p, x := n[1..k], n[k];
    AbsorbedSnoc(h.clusters, p, x);
    RedirectTwice(h.clusterLookUp, Absorbed(h.clusters, p), h.clusters[x], n[0]);
  }

  /** Under consistency the merged members are all known, so the merge adds
      no key to the lookup, and each of them is then looked up to `n[0]`. */
  lemma MergeLookupKeys(h: Heuristic, n: seq<nat>)
    requires Consistent(h)
    requires |n| >= 1
    requires forall j :: 0 <= j < |n| ==> n[j] in h.clusters
    ensures Absorbed(h.clusters, n) <= h.clusterLookUp.Keys
    ensures Merge(h, n).clusterLookUp.Keys == h.clusterLookUp.Keys
    ensures forall x :: x in Absorbed(h.clusters, n) ==> Merge(h, n).clusterLookUp[x] == n[0]
  {
    var a := Absorbed(h.clusters, n);
    var a1 := Absorbed(h.clusters, n[1..]);
    forall x | x in a1 ensures x in a {
      var j :| 0 <= j < |n[1..]| && n[1..][j] in h.clusters && x in h.clusters[n[1..][j]];
      assert n[1..][j] == n[j + 1];
    }
    forall x | x in a ensures Merge(h, n).clusterLookUp[x] == n[0] {
      var j :| 0 <= j < |n| && n[j] in h.clusters && x in h.clusters[n[j]];
      if j > 0 {
        assert n[1..][j - 1] == n[j];
        assert h.clusters[n[1..][j - 1]] <= a1;
      }
    }
  }

  lemma MergeLookupSound(h: Heuristic, n: seq<nat>)
    requires Consistent(h)
    requires |n| >= 1 && Distinct(n)
    requires forall j :: 0 <= j < |n| ==> n[j] in h.clusters
    ensures var m := Merge(h, n);
      forall x :: x in m.clusterLookUp ==> m.clusterLookUp[x] in m.clusters && x in m.clusters[m.clusterLookUp[x]]
  {
    var m := Merge(h, n);
    var a1 := Absorbed(h.clusters, n[1..]);
    MergeLookupKeys(h, n);
    forall x | x in m.clusterLookUp ensures m.clusterLookUp[x] in m.clusters && x in m.clusters[m.clusterLookUp[x]] {
      var c := h.clusterLookUp[x];
      if x !in a1 {
        forall j | 0 <= j < |n| - 1 ensures n[1..][j] != c {
          assert h.clusters[n[1..][j]] <= a1;
        }
        assert c !in Elements(n[1..]);
        assert h.clusters[n[0]] <= Absorbed(h.clusters, n);
      }
    }
  }

  lemma MergeMembersSound(h: Heuristic, n: seq<nat>)
    requires Consistent(h)
    requires |n| >= 1 && Distinct(n)
    requires forall j :: 0 <= j < |n| ==> n[j] in h.clusters
    ensures var m := Merge(h, n);
      forall c, x :: c in m.clusters && x in m.clusters[c] ==> x in m.clusterLookUp && m.clusterLookUp[x] == c
  {
    var m := Merge(h, n);
    var a1 := Absorbed(h.clusters, n[1..]);
    MergeLookupKeys(h, n);
    forall c, x | c in m.clusters && x in m.clusters[c] ensures x in m.clusterLookUp && m.clusterLookUp[x] == c {
      if c != n[0] {
        assert x in h.clusters[c] && h.clusterLookUp[x] == c;
        forall j | 0 <= j < |n| - 1 ensures x !in h.clusters[n[1..][j]] {
          assert n[1..][j] in Elements(n[1..]);
        }
        assert x !in a1;
      }
    }
  }

  /** Merging the touched clusters keeps the state consistent, and every
      member of a merged cluster is then looked up to `n[0]`. */
  lemma MergeConsistent(h: Heuristic, n: seq<nat>)
    requires Consistent(h)
    requires |n| >= 1 && Distinct(n)
    requires forall j :: 0 <= j < |n| ==> n[j] in h.clusters
    ensures Consistent(Merge(h, n))
    ensures forall x :: x in Absorbed(h.clusters, n) ==> Merge(h, n).clusterLookUp[x] == n[0]
  {
    MergeLookupKeys(h, n);
    MergeLookupSound(h, n);
    MergeMembersSound(h, n);
    assert n[0] in n;
  }

  /** Merging a single cluster changes nothing, which is why `handle_inputs`
      skips the merge when only one cluster is touched. */
  lemma MergeSingleton(h: Heuristic, c: nat)
    requires Consistent(h) && c in h.clusters
    ensures Merge(h, [c]) == h
  {
    MergeFirst(h, c);
    assert Redirect(h.clusterLookUp, {}, c) == h.clusterLookUp;
  }

  /** Adding inputs to a cluster that already holds every known one keeps
      the state consistent. */
  lemma AddConsistent(h: Heuristic, inputs: seq<string>, c: nat)
    requires Consistent(h) && c in h.clusters
    requires forall x :: x in inputs && x in h.clusterLookUp ==> h.clusterLookUp[x] == c
    ensures Consistent(AddInputs(h, inputs, c))
  {
  }

  /** A fresh cluster of inputs none of which is known keeps the state consistent. */
  lemma NewEntryConsistent(h: Heuristic, inputs: seq<string>)
    requires Consistent(h)
    requires forall x :: x in inputs ==> x !in h.clusterLookUp
    ensures Consistent(NewEntry(h, inputs))
  {
  }

  /** `handle_inputs` keeps the four fields consistent. */
  lemma HandleConsistent(h: Heuristic, inputs: seq<string>)
    requires Consistent(h)
    ensures Consistent(Handle(h, inputs).state)
  {
    var n := TouchedIds(h.clusterLookUp, inputs);
    if |n| == 0 {
      NewEntryConsistent(h, inputs);
    } else {
      StrictlySortedDistinct(n);
      TouchedAreClusters(h.clusterLookUp, h.clusters, inputs);
      assert n[0] in n;
      if |n| > 1 {
        var m := Merge(h, n);
        MergeConsistent(h, n);
        forall x | x in inputs && x in m.clusterLookUp ensures m.clusterLookUp[x] == n[0] {
          var j :| 0 <= j < |n| && n[j] == h.clusterLookUp[x];
          assert h.clusters[n[j]] <= Absorbed(h.clusters, n);
        }
        assert n[0] !in Elements(n[1..]);
        AddConsistent(m, inputs, n[0]);
      } else {
        forall x | x in inputs && x in h.clusterLookUp ensures h.clusterLookUp[x] == n[0] {
          assert h.clusterLookUp[x] in n;
        }
        AddConsistent(h, inputs, n[0]);
      }
    }
  }

  /** The inputs end up together: each is known, looked up to the returned
      id and a member of that cluster; the known set grows by the inputs. */
  lemma HandleGroupsInputs(h: Heuristic, inputs: seq<string>)
    requires Consistent(h)
    ensures var o := Handle(h, inputs);
      o.id in o.state.clusters
      && (forall x :: x in inputs ==> x in o.state.clusterLookUp && o.state.clusterLookUp[x] == o.id && x in o.state.clusters[o.id])
      && o.state.knownNodes == h.knownNodes + Elements(inputs)
      && h.clusterIndex <= o.state.clusterIndex
  {
  }

  /** With no known input the result is a new cluster under the old counter,
      which grows by one; otherwise the touched clusters are merged into the
      smallest of their ids, the others are deleted, nothing is lost, and the
      counter does not move. */
  lemma HandleOutcome(h: Heuristic, inputs: seq<string>)
    requires Consistent(h)
    ensures var o := Handle(h, inputs); var n := TouchedIds(h.clusterLookUp, inputs);
      if |n| == 0 then
        o.id == h.clusterIndex && o.state.clusterIndex == h.clusterIndex + 1
        && o.state.clusters == h.clusters[o.id := Elements(inputs)]
      else
        o.id == n[0] && (forall d :: d in n ==> o.id <= d)
        && o.state.clusterIndex == h.clusterIndex
        && o.state.clusters.Keys == h.clusters.Keys - Elements(n[1..])
        && o.state.clusters[o.id] == Absorbed(h.clusters, n) + Elements(inputs)
  {
    var n := TouchedIds(h.clusterLookUp, inputs);
    if |n| > 0 {
      StrictlySortedDistinct(n);
      TouchedAreClusters(h.clusterLookUp, h.clusters, inputs);
      if |n| == 1 {
        assert n[1..] == [] && n == [n[0]];
        MergeFirst(h, n[0]);
      } else {
        assert n[0] !in Elements(n[1..]);
      }
    }
  }

  /** A cluster none of the inputs belongs to keeps its id and its members. */
  lemma HandleUntouched(h: Heuristic, inputs: seq<string>)
    requires Consistent(h)
    ensures var o := Handle(h, inputs);
      forall d :: d in h.clusters && d !in TouchedIds(h.clusterLookUp, inputs)
        ==> d in o.state.clusters && o.state.clusters[d] == h.clusters[d]
  {
    var n := TouchedIds(h.clusterLookUp, inputs);
    forall d | d in h.clusters && d !in n ensures d in Handle(h, inputs).state.clusters && Handle(h, inputs).state.clusters[d] == h.clusters[d] {
      assert d != h.clusterIndex;
      if |n| > 1 {
        assert d !in Elements(n[1..]) && d != n[0];
      }
    }
  }

  lemma AssignStep(lookup: map<string, nat>, inputs: seq<string>, k: nat, c: nat)
    requires k < |inputs|
    ensures Assign(lookup, inputs[..k + 1], c) == Assign(lookup, inputs[..k], c)[inputs[k] := c]
  {
    assert inputs[..k + 1] == inputs[..k] + [inputs[k]];
  }

  // ---------------------------------------------------------------------
  // The structure

  class InputHeuristic {
    var clusters: map<nat, set<string>>
    var knownNodes: set<string>
    var clusterLookUp: map<string, nat>
    var clusterIndex: nat

    ghost function Snapshot(): Heuristic
      reads this
    {
      Heuristic(clusters, knownNodes, clusterLookUp, clusterIndex)
    }

    ghost predicate Valid()
      reads this
    {
      Consistent(Snapshot())
    }

    constructor ()
      ensures Valid()
      ensures clusters == map[] && knownNodes == {} && clusterLookUp == map[] && clusterIndex == 0
    {
      clusters, knownNodes, clusterLookUp, clusterIndex := map[], {}, map[], 0;
    }

    /** `_get_cluster`: the id of a known address, `None` for an unknown one. */
    method GetCluster(inp: string) returns (r: Option<nat>)
      requires Valid()
      ensures r.Some? <==> inp in knownNodes
      ensures r.Some? ==> r.value == clusterLookUp[inp] && r.value in clusters && inp in clusters[r.value]
    {
      if inp in knownNodes {
        return Some(clusterLookUp[inp]);
      }
      return None;
    }

    /** `_merge_clusters`: moves the members of the clusters `n[1..]` into
        cluster `n[0]` one cluster at a time, and returns `n[0]`. */
    method MergeClusters(n: seq<nat>) returns (c: nat)
      requires |n| >= 1 && Distinct(n)
      requires forall j :: 0 <= j < |n| ==> n[j] in clusters
      modifies this
      ensures c == n[0]
      ensures Snapshot() == Merge(old(Snapshot()), n)
    {
      ghost var h0 := Snapshot();
      assert n[..1] == [n[0]];
      MergeFirst(h0, n[0]);
      RedirectNone(h0.clusterLookUp, n[0]);
      var k := 1;
      while k < |n|
        invariant 1 <= k <= |n|
        invariant clusters == Merge(h0, n[..k]).clusters
        invariant clusterLookUp == Merge(h0, n[..k]).clusterLookUp
        invariant knownNodes == h0.knownNodes && clusterIndex == h0.clusterIndex
      {
        var i := n[k];
        MergeStepClusters(h0, n, k);
        MergeStepLookup(h0, n, k);
        assert clusters[i] == h0.clusters[i];
        PointAt(clusters[i], n[0]);
        clusters := clusters[n[0] := clusters[n[0]] + clusters[i]] - {i};
        k := k + 1;
      }
      assert n[..k] == n;
      c := n[0];
    }

    /** The inner loop of `_merge_clusters`: every address of `members` is
        looked up to `target` from now on. */
    method PointAt(members: set<string>, target: nat)
      modifies this
      ensures clusterLookUp == Redirect(old(clusterLookUp), members, target)
      ensures clusters == old(clusters) && knownNodes == old(knownNodes) && clusterIndex == old(clusterIndex)
    {
      ghost var lk := clusterLookUp;
      var rest := members;
      RedirectNone(lk, target);
      assert members - rest == {};
      while rest != {}
        invariant rest <= members
        invariant clusterLookUp == Redirect(lk, members - rest, target)
        invariant clusters == old(clusters) && knownNodes == old(knownNodes) && clusterIndex == old(clusterIndex)
        decreases rest
      {
        var j :| j in rest;
        RedirectAdd(lk, members - rest, j, target);
        assert members - (rest - {j}) == (members - rest) + {j};
        clusterLookUp := clusterLookUp[j := target];
        rest := rest - {j};
      }
      assert members - rest == members;
    }

    /** `_inputs_to_cluster`: adds the inputs to cluster `c` and to the known
        addresses, and points their lookup at `c`. */
    method InputsToCluster(inputlist: seq<string>, c: nat)
      requires c in clusters
      modifies this
      ensures Snapshot() == AddInputs(old(Snapshot()), inputlist, c)
    {
      ghost var h0 := Snapshot();
      knownNodes := knownNodes + Elements(inputlist);
      clusters := clusters[c := clusters[c] + Elements(inputlist)];
      assert Assign(h0.clusterLookUp, inputlist[..0], c) == h0.clusterLookUp;
      for k := 0 to |inputlist|
        invariant clusterLookUp == Assign(h0.clusterLookUp, inputlist[..k], c)
        invariant knownNodes == h0.knownNodes + Elements(inputlist)
        invariant clusters == h0.clusters[c := h0.clusters[c] + Elements(inputlist)]
        invariant clusterIndex == h0.clusterIndex
      {
        AssignStep(h0.clusterLookUp, inputlist, k, c);
        clusterLookUp := clusterLookUp[inputlist[k] := c];
      }
      assert inputlist[..|inputlist|] == inputlist;
    }

    /** `_create_entry`: a new cluster holding exactly the inputs, under the
        next id; returns that id. */
    method CreateEntry(inputlist: seq<string>) returns (c: nat)
      modifies this
      ensures c == old(clusterIndex)
      ensures Snapshot() == NewEntry(old(Snapshot()), inputlist)
    {
      ghost var h0 := Snapshot();
      clusters := clusters[clusterIndex := Elements(inputlist)];
      assert Assign(h0.clusterLookUp, inputlist[..0], clusterIndex) == h0.clusterLookUp;
      for k := 0 to |inputlist|
        invariant clusterLookUp == Assign(h0.clusterLookUp, inputlist[..k], clusterIndex)
        invariant clusters == h0.clusters[h0.clusterIndex := Elements(inputlist)]
        invariant knownNodes == h0.knownNodes && clusterIndex == h0.clusterIndex
      {
        AssignStep(h0.clusterLookUp, inputlist, k, clusterIndex);
        clusterLookUp := clusterLookUp[inputlist[k] := clusterIndex];
      }
      assert inputlist[..|inputlist|] == inputlist;
      clusterIndex := clusterIndex + 1;
      knownNodes := knownNodes + Elements(inputlist);
      c := clusterIndex - 1;
    }

    /** `handle_inputs`: puts all inputs into one cluster and returns its id. */
    method HandleInputs(inputs: seq<string>) returns (c: nat)
      requires Valid()
      modifies this
      ensures Valid()
      ensures Snapshot() == Handle(old(Snapshot()), inputs).state
      ensures c == Handle(old(Snapshot()), inputs).id
    {
      ghost var h0 := Snapshot();
      var n: seq<nat> := [];
      for k := 0 to |inputs|
        invariant n == TouchedIds(clusterLookUp, inputs[..k])
        invariant Snapshot() == h0
      {
        assert inputs[..k + 1][..k] == inputs[..k];
        var found := GetCluster(inputs[k]);
        if found.Some? {
          n := InsertId(found.value, n);
        }
      }
      assert inputs[..|inputs|] == inputs;
      if |n| > 0 {
        StrictlySortedDistinct(n);
        assert forall j :: 0 <= j < |n| ==> n[j] in clusters by {
          forall j | 0 <= j < |n| ensures n[j] in clusters {
            assert n[j] in n;
          }
        }
        // `n` is already in increasing order, as `n.sort()` leaves it
        if |n| > 1 {
          c := MergeClusters(n);
        } else {
          c := n[0];
        }
        InputsToCluster(inputs, c);
      } else {
        c := CreateEntry(inputs);
      }
      HandleConsistent(h0, inputs);
    }
  }
}
