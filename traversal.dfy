/**
 * The bond graph as a value, and the visited-guarded depth-first walk that
 * rotate, print_molecule and print_moleculef all perform.
 *
 * A graph is the sequence of every atom's neighbour list (in bond-creation
 * order); a set of atom indices plays the part of the `check` flags.
 */
module Traversal {

  type Graph = seq<seq<int>>

  /** Every neighbour entry names an atom of the graph. */
  predicate Closed(G: Graph) {
    forall i, k :: 0 <= i < |G| && 0 <= k < |G[i]| ==> 0 <= G[i][k] < |G|
  }

  predicate AllIn(G: Graph, ns: seq<int>) {
    forall k :: 0 <= k < |ns| ==> 0 <= ns[k] < |G|
  }

  /** The bond relation is symmetric, counting duplicate bonds. */
  predicate Symmetric(G: Graph) {
    forall i, j :: 0 <= i < |G| && 0 <= j < |G| ==> multiset(G[i])[j] == multiset(G[j])[i]
  }

  predicate Distinct(s: seq<int>) {
    forall i, j :: 0 <= i < j < |s| ==> s[i] != s[j]
  }

  /** The graph after bonding `a` to `b`: each appended to the other's list. */
  function AddEdge(G: Graph, a: int, b: int): (H: Graph)
    requires 0 <= a < |G| && 0 <= b < |G|
    ensures |H| == |G|
  {
    G[a := G[a] + [b]][b := G[b] + [a]]
  }

  /** A bond between two atoms of the molecule names only atoms of it. */
  lemma AddEdgeClosed(G: Graph, a: int, b: int)
    requires Closed(G) && 0 <= a < |G| && 0 <= b < |G|
    ensures Closed(AddEdge(G, a, b))
  {
    var H := AddEdge(G, a, b);
    forall i, k | 0 <= i < |H| && 0 <= k < |H[i]|
      ensures 0 <= H[i][k] < |H|
    {
      if i == b {
        assert H[i] == G[b] + [a];
      } else if i == a {
        assert H[i] == G[a] + [b];
      } else {
        assert H[i] == G[i];
      }
    }
  }

  /**
   * A bond is recorded on both ends, so the bond relation stays symmetric:
   * `j` appears among the bonds of `i` as often as `i` among those of `j`.
   */
  lemma AddEdgeSymmetric(G: Graph, a: int, b: int)
    requires Symmetric(G) && 0 <= a < |G| && 0 <= b < |G| && a != b
    ensures Symmetric(AddEdge(G, a, b))
  {
    var H := AddEdge(G, a, b);
    forall i, j | 0 <= i < |H| && 0 <= j < |H|
      ensures multiset(H[i])[j] == multiset(H[j])[i]
    {
      AddEdgeCount(G, a, b, i, j);
      AddEdgeCount(G, a, b, j, i);
    }
  }

  /** The new edge raises by one the count of `b` among the bonds of `a` and of `a` among those of `b`. */
  lemma AddEdgeCount(G: Graph, a: int, b: int, i: int, j: int)
    requires 0 <= a < |G| && 0 <= b < |G| && a != b && 0 <= i < |G|
    ensures multiset(AddEdge(G, a, b)[i])[j] ==
      multiset(G[i])[j] + if (i == a && j == b) || (i == b && j == a) then 1 else 0
  {
    var H := AddEdge(G, a, b);
    if i == a {
      assert H[i] == G[a] + [b];
      assert multiset(H[i]) == multiset(G[a]) + multiset{b};
    } else if i == b {
      assert H[i] == G[b] + [a];
      assert multiset(H[i]) == multiset(G[b]) + multiset{a};
    } else {
      assert H[i] == G[i];
    }
  }


  // ---------------------------------------------------------------------
  // Paths and reachability avoiding a set of already-checked atoms

  /** `p` walks along bonds and never enters an atom of `C`. */
  ghost predicate IsPath(G: Graph, p: seq<int>, C: set<int>) {
    forall k :: 0 <= k < |p| ==>
      0 <= p[k] < |G| && p[k] !in C && (k + 1 < |p| ==> p[k + 1] in G[p[k]])
  }

  /** `u` can be reached from `s` along bonds through atoms outside `C`. */
  ghost predicate Reachable(G: Graph, s: int, u: int, C: set<int>) {
    exists p :: |p| > 0 && p[0] == s && p[|p| - 1] == u && IsPath(G, p, C)
  }

  /** Some atom of `ns` reaches `u` through atoms outside `C`. */
  ghost predicate ReachableFromAny(G: Graph, ns: seq<int>, u: int, C: set<int>) {
    exists k :: 0 <= k < |ns| && Reachable(G, ns[k], u, C)
  }

  lemma ReachableSelf(G: Graph, s: int, C: set<int>)
    requires 0 <= s < |G| && s !in C
    ensures Reachable(G, s, s, C)
  {
    assert IsPath(G, [s], C);
  }

  lemma ReachableEnds(G: Graph, s: int, u: int, C: set<int>)
    requires Reachable(G, s, u, C)
    ensures 0 <= s < |G| && s !in C && 0 <= u < |G| && u !in C
  {
    var p :| |p| > 0 && p[0] == s && p[|p| - 1] == u && IsPath(G, p, C);
    assert p[|p| - 1] == u;
  }

  /** A path avoiding a larger set avoids a smaller one. */
  lemma ReachableAntitone(G: Graph, s: int, u: int, C: set<int>, D: set<int>)
    requires C <= D && Reachable(G, s, u, D)
    ensures Reachable(G, s, u, C)
  {
    var p :| |p| > 0 && p[0] == s && p[|p| - 1] == u && IsPath(G, p, D);
    assert IsPath(G, p, C);
  }

  /** A bond out of an unchecked atom `s` extends every path from its neighbour. */
  lemma ReachablePrepend(G: Graph, s: int, n: int, u: int, C: set<int>)
    requires 0 <= s < |G| && s !in C && n in G[s] && Reachable(G, n, u, C)
    ensures Reachable(G, s, u, C)
  {
    var p :| |p| > 0 && p[0] == n && p[|p| - 1] == u && IsPath(G, p, C);
    var q := [s] + p;
    assert IsPath(G, q, C) by {
      forall k | 0 <= k < |q|
        ensures 0 <= q[k] < |G| && q[k] !in C && (k + 1 < |q| ==> q[k + 1] in G[q[k]])
      {
        if k > 0 { assert q[k] == p[k - 1]; }
      }
    }
    assert q[|q| - 1] == u;
  }

  lemma ReachableConcat(G: Graph, s: int, x: int, u: int, C: set<int>)
    requires Reachable(G, s, x, C) && Reachable(G, x, u, C)
    ensures Reachable(G, s, u, C)
  {
    var p :| |p| > 0 && p[0] == s && p[|p| - 1] == x && IsPath(G, p, C);
    var q :| |q| > 0 && q[0] == x && q[|q| - 1] == u && IsPath(G, q, C);
    var r := p + q[1..];
    assert IsPath(G, r, C) by {
      forall k | 0 <= k < |r|
        ensures 0 <= r[k] < |G| && r[k] !in C && (k + 1 < |r| ==> r[k + 1] in G[r[k]])
      {
        if k >= |p| {
          assert r[k] == q[k - |p| + 1];
          if k + 1 < |r| { assert r[k + 1] == q[k - |p| + 2]; }
        } else if k == |p| - 1 && k + 1 < |r| {
          assert r[k] == q[0] && r[k + 1] == q[1];
        }
      }
    }
    assert r[|r| - 1] == u;
  }

  /**
   * A path avoiding `C` either also avoids the larger set `D`, or it passes
   * through an atom of `D` that is not in `C`.
   */
  lemma ReachableSplitAt(G: Graph, s: int, u: int, C: set<int>, D: set<int>)
    requires C <= D && Reachable(G, s, u, C)
    ensures Reachable(G, s, u, D) ||
            exists x :: x in D && x !in C && Reachable(G, s, x, C) && Reachable(G, x, u, C)
  {
    var p :| |p| > 0 && p[0] == s && p[|p| - 1] == u && IsPath(G, p, C);
    if j :| 0 <= j < |p| && p[j] in D {
      var x := p[j];
      var p1, p2 := p[..j + 1], p[j..];
      assert IsPath(G, p1, C) by {
        forall k | 0 <= k < |p1|
          ensures 0 <= p1[k] < |G| && p1[k] !in C && (k + 1 < |p1| ==> p1[k + 1] in G[p1[k]])
        {
          assert p1[k] == p[k];
        }
      }
      assert IsPath(G, p2, C) by {
        forall k | 0 <= k < |p2|
          ensures 0 <= p2[k] < |G| && p2[k] !in C && (k + 1 < |p2| ==> p2[k + 1] in G[p2[k]])
        {
          assert p2[k] == p[j + k];
        }
      }
      assert p1[|p1| - 1] == x && p2[|p2| - 1] == u;
      assert Reachable(G, s, x, C) && Reachable(G, x, u, C);
    } else {
      assert IsPath(G, p, D);
    }
  }

  /**
   * A path leaving an unchecked atom `s` for another atom passes, after its
   * last visit to `s`, through a neighbour of `s` and never returns to `s`.
   */
  lemma ReachableLeave(G: Graph, s: int, u: int, C: set<int>)
    requires Reachable(G, s, u, C) && u != s
    ensures exists n :: n in G[s] && Reachable(G, n, u, C + {s})
  {
    var p :| |p| > 0 && p[0] == s && p[|p| - 1] == u && IsPath(G, p, C);
    ShorterPath(G, p, s, u, C);
  }

  /** The induction step of ReachableLeave, on the length of the witness path. */
  lemma {:induction false} ShorterPath(G: Graph, p: seq<int>, s: int, u: int, C: set<int>)
    requires |p| > 0 && p[0] == s && p[|p| - 1] == u && IsPath(G, p, C) && u != s
    ensures exists n :: n in G[s] && Reachable(G, n, u, C + {s})
    decreases |p|
  {
    var q := p[1..];
    assert IsPath(G, q, C) by {
      forall k | 0 <= k < |q|
        ensures 0 <= q[k] < |G| && q[k] !in C && (k + 1 < |q| ==> q[k + 1] in G[q[k]])
      {
        assert q[k] == p[k + 1];
      }
    }
    assert q[0] in G[s] && q[|q| - 1] == u;
    if j :| 0 <= j < |q| && q[j] == s {
      var r := q[j..];
      assert IsPath(G, r, C) by {
        forall k | 0 <= k < |r|
          ensures 0 <= r[k] < |G| && r[k] !in C && (k + 1 < |r| ==> r[k + 1] in G[r[k]])
        {
          assert r[k] == q[j + k];
        }
      }
      assert r[0] == s && r[|r| - 1] == u;
      ShorterPath(G, r, s, u, C);
    } else {
      assert IsPath(G, q, C + {s});
      assert Reachable(G, q[0], u, C + {s});
    }
  }

  // ---------------------------------------------------------------------
  // The walk as a function

  /** The atoms not yet checked: the measure that the walk decreases. */
  function Unchecked(G: Graph, C: set<int>): set<int> {
    set i | 0 <= i < |G| && i !in C
  }

  lemma UncheckedShrinks(G: Graph, C: set<int>, D: set<int>)
    requires C <= D
    ensures Unchecked(G, D) <= Unchecked(G, C)
  {
  }

  /**
   * The walk from `s` with checked set `C`: the atoms it acts on, in order,
   * and the checked set it leaves. An atom already checked is skipped;
   * otherwise it is checked, acted on, and each neighbour is walked from in
   * list order (rotate, main.c:143-155).
   */
  function Dfs(G: Graph, s: int, C: set<int>): (r: (seq<int>, set<int>))
    requires Closed(G) && 0 <= s < |G|
    ensures C <= r.1
    ensures forall u :: u in r.0 <==> u in r.1 && u !in C
    ensures Distinct(r.0) && AllIn(G, r.0)
    ensures s in C <==> r.0 == []
    ensures s !in C ==> r.0[0] == s
    decreases Unchecked(G, C), 0
  {
    if s in C then ([], C)
    else
      assert s in Unchecked(G, C) - Unchecked(G, C + {s});
      var (o, D) := DfsList(G, G[s], C + {s});
      ([s] + o, D)
  }

  /** The walks from each atom of `ns` in turn, each starting where the last left off. */
  function DfsList(G: Graph, ns: seq<int>, C: set<int>): (r: (seq<int>, set<int>))
    requires Closed(G) && AllIn(G, ns)
    ensures C <= r.1
    ensures forall u :: u in r.0 <==> u in r.1 && u !in C
    ensures Distinct(r.0) && AllIn(G, r.0)
    decreases Unchecked(G, C), |ns| + 1
  {
    if ns == [] then ([], C)
    else
      var (o1, C1) := DfsList(G, ns[..|ns| - 1], C);
      UncheckedShrinks(G, C, C1);
      var (o2, C2) := Dfs(G, ns[|ns| - 1], C1);
      assert forall i :: 0 <= i < |o1| ==> o1[i] in o1 && o1[i] in C1;
      assert forall j :: 0 <= j < |o2| ==> o2[j] in o2 && o2[j] !in C1;
      (o1 + o2, C2)
  }

  // ---------------------------------------------------------------------
  // What the walk marks

  /**
   * The walk from `s` checks exactly the atoms reachable from `s` through
   * atoms that were unchecked when it began.
   */
  lemma {:induction false} DfsMarksReachable(G: Graph, s: int, C: set<int>)
    requires Closed(G) && 0 <= s < |G|
    ensures forall u :: u in Dfs(G, s, C).1 <==> u in C || Reachable(G, s, u, C)
    decreases Unchecked(G, C), 0
  {
    if s in C {
      forall u | Reachable(G, s, u, C) ensures false {
        ReachableEnds(G, s, u, C);
      }
    } else {
      assert s in Unchecked(G, C) - Unchecked(G, C + {s});
      var D := DfsList(G, G[s], C + {s}).1;
      DfsListMarksReachable(G, G[s], C + {s});
      assert Dfs(G, s, C).1 == D;
      forall u
        ensures u in D <==> u in C || Reachable(G, s, u, C)
      {
        if u in D && u !in C {
          if u == s {
            ReachableSelf(G, s, C);
          } else {
            var k :| 0 <= k < |G[s]| && Reachable(G, G[s][k], u, C + {s});
            ReachableAntitone(G, G[s][k], u, C, C + {s});
            ReachablePrepend(G, s, G[s][k], u, C);
          }
        }
        if Reachable(G, s, u, C) && u != s {
          ReachableLeave(G, s, u, C);
          var n :| n in G[s] && Reachable(G, n, u, C + {s});
          var k :| 0 <= k < |G[s]| && G[s][k] == n;
          assert ReachableFromAny(G, G[s], u, C + {s});
        }
      }
    }
  }

  /**
   * The walks from the atoms of `ns` check exactly the atoms reachable from
   * one of them through atoms that were unchecked before the first began.
   */
  lemma {:induction false} DfsListMarksReachable(G: Graph, ns: seq<int>, C: set<int>)
    requires Closed(G) && AllIn(G, ns)
    ensures forall u :: u in DfsList(G, ns, C).1 <==> u in C || ReachableFromAny(G, ns, u, C)
    decreases Unchecked(G, C), |ns| + 1
  {
    if ns != [] {
      var init, last := ns[..|ns| - 1], ns[|ns| - 1];
      var C1 := DfsList(G, init, C).1;
      DfsListMarksReachable(G, init, C);
      UncheckedShrinks(G, C, C1);
      var C2 := Dfs(G, last, C1).1;
      DfsMarksReachable(G, last, C1);
      assert DfsList(G, ns, C).1 == C2;
      assert ns == init + [last];
      forall u
        ensures u in C2 <==> u in C || ReachableFromAny(G, ns, u, C)
      {
        DfsListStep(G, init, last, C, C1, C2, u);
      }
    }
  }

  lemma TakeOneMore(xs: seq<int>, i: int)
    requires 0 <= i < |xs|
    ensures xs[..i + 1] == xs[..i] + [xs[i]]
  {
  }

  /** Walking one more neighbour continues from the checked set the earlier ones left. */
  lemma DfsListSnoc(G: Graph, ns: seq<int>, t: int, C: set<int>)
    requires Closed(G) && AllIn(G, ns) && 0 <= t < |G|
    ensures AllIn(G, ns + [t])
    ensures DfsList(G, ns + [t], C).0 == DfsList(G, ns, C).0 + Dfs(G, t, DfsList(G, ns, C).1).0
    ensures DfsList(G, ns + [t], C).1 == Dfs(G, t, DfsList(G, ns, C).1).1
  {
    assert (ns + [t])[..|ns|] == ns;
  }

  /** The walks from a one-atom list are the walk from that atom. */
  lemma DfsListOne(G: Graph, t: int, C: set<int>)
    requires Closed(G) && 0 <= t < |G|
    ensures DfsList(G, [t], C).0 == Dfs(G, t, C).0 && DfsList(G, [t], C).1 == Dfs(G, t, C).1
  {
    DfsListSnoc(G, [], t, C);
    assert [] + [t] == [t];
  }

  /** The walks from a two-atom list: the first, then the second from where it left off. */
  lemma DfsListTwo(G: Graph, t: int, u: int, C: set<int>)
    requires Closed(G) && 0 <= t < |G| && 0 <= u < |G|
    ensures DfsList(G, [t, u], C).0 == Dfs(G, t, C).0 + Dfs(G, u, Dfs(G, t, C).1).0
    ensures DfsList(G, [t, u], C).1 == Dfs(G, u, Dfs(G, t, C).1).1
  {
    DfsListOne(G, t, C);
    DfsListSnoc(G, [t], u, C);
    assert [t] + [u] == [t, u];
  }

  /** The step of DfsListMarksReachable for one atom `u`: one more walk, from `last`. */
  lemma DfsListStep(G: Graph, init: seq<int>, last: int, C: set<int>, C1: set<int>, C2: set<int>, u: int)
    requires Closed(G) && AllIn(G, init) && 0 <= last < |G| && C <= C1
    requires forall v :: v in C1 <==> v in C || ReachableFromAny(G, init, v, C)
    requires forall v :: v in C2 <==> v in C1 || Reachable(G, last, v, C1)
    ensures u in C2 <==> u in C || ReachableFromAny(G, init + [last], u, C)
  {
    var ns := init + [last];
    if u in C2 && u !in C {
      if u in C1 {
        var k :| 0 <= k < |init| && Reachable(G, init[k], u, C);
        assert ns[k] == init[k];
      } else {
        ReachableAntitone(G, last, u, C, C1);
        assert ns[|ns| - 1] == last;
      }
    }
    if ReachableFromAny(G, ns, u, C) {
      var k :| 0 <= k < |ns| && Reachable(G, ns[k], u, C);
      if k < |init| {
        assert init[k] == ns[k];
        assert ReachableFromAny(G, init, u, C);
      } else {
        ReachableSplitAt(G, last, u, C, C1);
        if x :| x in C1 && x !in C && Reachable(G, last, x, C) && Reachable(G, x, u, C) {
          var j :| 0 <= j < |init| && Reachable(G, init[j], x, C);
          ReachableConcat(G, init[j], x, u, C);
          assert ReachableFromAny(G, init, u, C);
        }
      }
    }
  }

  /**
   * Together: the walk acts on each atom at most once, on exactly the atoms
   * reachable from `s` through unchecked atoms, and leaves them checked.
   */
  lemma DfsActsOnReachable(G: Graph, s: int, C: set<int>)
    requires Closed(G) && 0 <= s < |G|
    ensures Distinct(Dfs(G, s, C).0)
    ensures forall u :: u in Dfs(G, s, C).0 <==> Reachable(G, s, u, C)
    ensures Dfs(G, s, C).1 == C + set u | u in Dfs(G, s, C).0
  {
    DfsMarksReachable(G, s, C);
    var r := Dfs(G, s, C);
    forall u | u in r.0 ensures Reachable(G, s, u, C) {
    }
  }
}
