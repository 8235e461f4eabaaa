/**
 * The illustrative run of main (main.c:204-237): a chain of four atoms
 * 0-1-2-3, printed from atom `i`, turned about the bond 1->2 and printed
 * again.
 */
module Example {
  import opened VectorMath
  import opened Traversal
  import opened Conformation

  /** The positions main gives the four atoms (main.c:219-222). */
  function Start(): seq<Vector> {
    [Vector(0.0, 0.0, 0.0), Vector(1.0, 1.0, 0.0), Vector(1.0, 2.0, 0.0), Vector(2.0, 2.0, 0.0)]
  }

  /** The bonds main adds, 0-1, 1-2 and 2-3, as bond lists (main.c:223-225). */
  function Chain(): (G: Graph)
    ensures Closed(G)
  {
    [[1], [0, 2], [1, 3], [2]]
  }

  /** A walk from an atom already checked does nothing. */
  lemma Skip(s: int, C: set<int>)
    requires 0 <= s < 4 && s in C
    ensures Dfs(Chain(), s, C).0 == [] && Dfs(Chain(), s, C).1 == C
  {
  }

  /** A walk from an unchecked atom acts on it, then walks from its neighbours with it checked (`D`). */
  lemma Enter(s: int, C: set<int>, D: set<int>)
    requires 0 <= s < 4 && s !in C && D == C + {s}
    ensures Dfs(Chain(), s, C).0 == [s] + DfsList(Chain(), Chain()[s], D).0
    ensures Dfs(Chain(), s, C).1 == DfsList(Chain(), Chain()[s], D).1
  {
  }

  /** Once atom 1 is checked, the walk from atom 2 reaches atoms 2 and 3 and no others. */
  lemma FromTwo(C: set<int>)
    requires 1 in C && 2 !in C && 3 !in C
    ensures Dfs(Chain(), 2, C).0 == [2, 3]
    ensures Dfs(Chain(), 2, C).1 == C + {2, 3}
  {
    var G := Chain();
    var D, E := C + {2}, C + {2, 3};
    assert E == D + {3};
    Skip(2, E);
    DfsListOne(G, 2, E);
    Enter(3, D, E);
    Skip(1, D);
    DfsListTwo(G, 1, 3, D);
    Enter(2, C, D);
  }

  /** Once atom 0 is checked, the walk from atom 1 reaches atoms 1, 2 and 3, in that order. */
  lemma FromOne(C: set<int>)
    requires 0 in C && 1 !in C && 2 !in C && 3 !in C
    ensures Dfs(Chain(), 1, C).0 == [1, 2, 3]
    ensures Dfs(Chain(), 1, C).1 == C + {1, 2, 3}
  {
    var G := Chain();
    var D := C + {1};
    FromTwo(D);
    assert D + {2, 3} == C + {1, 2, 3};
    Skip(0, D);
    DfsListTwo(G, 0, 2, D);
    Enter(1, C, D);
  }

  /** With nothing of the chain checked, the walk from atom 0 reaches the whole chain in chain order. */
  lemma FromZero(C: set<int>)
    requires 0 !in C && 1 !in C && 2 !in C && 3 !in C
    ensures Dfs(Chain(), 0, C).0 == [0, 1, 2, 3]
    ensures Dfs(Chain(), 0, C).1 == C + {0, 1, 2, 3}
  {
    var D := C + {0};
    assert [0] + [1, 2, 3] == [0, 1, 2, 3];
    assert D + {1, 2, 3} == C + {0, 1, 2, 3};
    FromOne(D);
    DfsListOne(Chain(), 1, D);
    Enter(0, C, D);
    assert Chain()[0] == [1];
  }

  /**
   * The positions after rotate_about(1, 2) turns the chain at positions `ps`
   * about the bond 1->2, whose length `n` is, by the angle whose cosine and
   * sine are `ct` and `st`: atoms 2 and 3 move, atoms 0 and 1 stay.
   */
  function Turned(ps: seq<Vector>, n: real, ct: real, st: real): seq<Vector>
    requires |ps| == 4 && n > 0.0 && n * n == NormSq(Sub(ps[2], ps[1]))
  {
    SpinAll(ps, [2, 3], Normalise(Sub(ps[2], ps[1]), n), ps[1], ct, st)
  }

  /** Bonding the atoms of main one pair after another gives the chain. */
  lemma ChainBuilt()
    ensures AddEdge(AddEdge(AddEdge(seq(4, i => []), 0, 1), 1, 2), 2, 3) == Chain()
  {
    var E: Graph := seq(4, i => []);
    var G1 := AddEdge(E, 0, 1);
    assert G1[0] == [1] && G1[1] == [0] && G1[2] == [] && G1[3] == [];
    var G2 := AddEdge(G1, 1, 2);
    assert G2[0] == [1] && G2[1] == [0, 2] && G2[2] == [1] && G2[3] == [];
    var G3 := AddEdge(G2, 2, 3);
    assert G3[0] == [1] && G3[1] == [0, 2] && G3[2] == [1, 3] && G3[3] == [2];
  }

  /** The axis rotate_about(1, 2) turns the chain about: the unit y axis. */
  lemma AxisOfChain()
    ensures NormSq(Sub(Start()[2], Start()[1])) == 1.0
    ensures Normalise(Sub(Start()[2], Start()[1]), 1.0) == Vector(0.0, 1.0, 0.0)
  {
    var u := Normalise(Sub(Start()[2], Start()[1]), 1.0);
    assert Scale(1.0, u) == u;
  }

  /** Turned about the y axis through atom 1, atom 2 stays put and atom 3 lands at (1 + ct, 2, -st). */
  lemma EndOfChain(ct: real, st: real)
    ensures Moved(Start()[2], Vector(0.0, 1.0, 0.0), Start()[1], ct, st) == Start()[2]
    ensures Moved(Start()[3], Vector(0.0, 1.0, 0.0), Start()[1], ct, st) == Vector(1.0 + ct, 2.0, -st)
  {
    var axis := Vector(0.0, 1.0, 0.0);
    var R := RotationMatrix(axis, ct, st);
    assert R.r0 == Vector(ct, 0.0, st) && R.r1 == Vector(0.0, 1.0, 0.0) && R.r2 == Vector(-st, 0.0, ct);
    assert Sub(Start()[2], Start()[1]) == Vector(0.0, 1.0, 0.0);
    assert Sub(Start()[3], Start()[1]) == Vector(1.0, 1.0, 0.0);
  }

  /** The turn about the y axis through atom 1 that rotate_about(1, 2) makes on main's chain. */
  function TurnedChain(ct: real, st: real): seq<Vector> {
    SpinAll(Start(), [2, 3], Vector(0.0, 1.0, 0.0), Start()[1], ct, st)
  }

  /** With main's positions, rotate_about(1, 2) turns about the y axis through atom 1. */
  lemma TurnedIsChain(ct: real, st: real)
    ensures NormSq(Sub(Start()[2], Start()[1])) == 1.0
    ensures Turned(Start(), 1.0, ct, st) == TurnedChain(ct, st)
  {
    AxisOfChain();
  }

  /** The turn of main's chain leaves atoms 0 and 1 where they were. */
  lemma TurnKeepsBase(ct: real, st: real)
    ensures |TurnedChain(ct, st)| == 4
    ensures TurnedChain(ct, st)[0] == Start()[0] && TurnedChain(ct, st)[1] == Start()[1]
  {
    SpinAllKeeps(Start(), [2, 3], Vector(0.0, 1.0, 0.0), Start()[1], ct, st, 0);
    SpinAllKeeps(Start(), [2, 3], Vector(0.0, 1.0, 0.0), Start()[1], ct, st, 1);
  }

  /** The turn of main's chain leaves atom 2 where it was and puts atom 3 at (1 + ct, 2, -st). */
  lemma TurnOfChain(ct: real, st: real)
    ensures TurnedChain(ct, st)[2] == Start()[2]
    ensures TurnedChain(ct, st)[3] == Vector(1.0 + ct, 2.0, -st)
  {
    SpinAllMoves(Start(), [2, 3], Vector(0.0, 1.0, 0.0), Start()[1], ct, st, 2);
    SpinAllMoves(Start(), [2, 3], Vector(0.0, 1.0, 0.0), Start()[1], ct, st, 3);
    EndOfChain(ct, st);
  }

  /** Printed from atom 0, the chain prints every position in index order. */
  lemma FromZeroPrints(ps: seq<Vector>)
    requires |ps| == 4
    ensures Printed(ps, Dfs(Chain(), 0, {}).0) == ps
  {
    FromZero({});
    var order := [0, 1, 2, 3];
    assert forall k :: 0 <= k < 4 ==> order[k] == k;
    PrintedInOrder(ps, order);
  }

  /** The molecule of main: four atoms at positions `ps`, bonded into the chain (main.c:218-225). */
  method Build(ps: seq<Vector>) returns (m: Molecule)
    requires |ps| == 4
    ensures fresh(m) && fresh(m.atoms) && m.Valid()
    ensures m.Graph() == Chain() && m.Positions() == ps && m.Checked() == {}
  {
    m := Bonded2(ps);
    m.AddBond(2, 3);
    ChainBuilt();
  }

  /** The first two bonds of main, 0-1 and 1-2, on four fresh atoms. */
  method Bonded2(ps: seq<Vector>) returns (m: Molecule)
    requires |ps| == 4
    ensures fresh(m) && fresh(m.atoms) && m.Valid() && m.atoms.Length == 4
    ensures forall k :: 0 <= k < 4 ==> fresh(m.atoms[k].bonds)
    ensures m.Graph() == AddEdge(AddEdge(seq(4, i => []), 0, 1), 1, 2)
    ensures m.Positions() == ps && m.Checked() == {}
  {
    m := Bonded1(ps);
    m.AddBond(1, 2);
  }

  /** The first bond of main, 0-1, on four fresh atoms. */
  method Bonded1(ps: seq<Vector>) returns (m: Molecule)
    requires |ps| == 4
    ensures fresh(m) && fresh(m.atoms) && m.Valid() && m.atoms.Length == 4
    ensures forall k :: 0 <= k < 4 ==> fresh(m.atoms[k].bonds)
    ensures m.Graph() == AddEdge(seq(4, i => []), 0, 1)
    ensures m.Positions() == ps && m.Checked() == {}
  {
    m := new Molecule(ps);
    m.AddBond(0, 1);
  }

  /** The call rotate_about(1, 2) of main on the freshly reset chain (main.c:230). */
  method Turn(m: Molecule, ps: seq<Vector>, n: real, ct: real, st: real) returns (moved: seq<int>)
    requires |ps| == 4 && n > 0.0 && n * n == NormSq(Sub(ps[2], ps[1]))
    requires m.Valid() && m.Graph() == Chain() && m.Positions() == ps && m.Checked() == {}
    modifies m.atoms
    ensures m.Valid() && m.Graph() == Chain() && m.Positions() == Turned(ps, n, ct, st)
    ensures moved == [2, 3]
  {
    ghost var C := m.Checked() + {1};
    FromTwo(C);
    moved := m.RotateAbout(1, 2, ct, st, n);
  }

  /**
   * main with the illustrative molecule: the chain 0-1-2-3 at positions
   * `ps` (main's own are `Start()`, where the bond 1->2 has length 1),
   * printed from atom `i`, turned by rotate_about about the bond 1->2 by
   * the angle whose cosine and sine are `ct` and `st`, and printed again
   * (main.c:204-237).
   */
  method Run(ps: seq<Vector>, n: real, i: int, ct: real, st: real) returns (before: seq<Vector>, moved: seq<int>, after: seq<Vector>)
    requires |ps| == 4 && n > 0.0 && n * n == NormSq(Sub(ps[2], ps[1]))
    requires 0 <= i < 4
    ensures moved == [2, 3]
    ensures before == Printed(ps, Dfs(Chain(), i, {}).0)
    ensures after == Printed(Turned(ps, n, ct, st), Dfs(Chain(), i, {}).0)
    ensures i == 0 ==> before == ps && after == Turned(ps, n, ct, st)
  {
    var m := Build(ps);
    before := m.PrintMolecule(i);
    m.ResetCheck();
    moved := Turn(m, ps, n, ct, st);
    m.ResetCheck();
    after := m.PrintMolecule(i);
    if i == 0 {
      FromZeroPrints(ps);
      FromZeroPrints(Turned(ps, n, ct, st));
    }
  }
}
