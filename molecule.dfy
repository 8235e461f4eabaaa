/**
 * The molecule of main.c: an array of atom records, each holding a position,
 * the `rotate` and `check` flags, and a growable buffer of bonded atoms.
 *
 * The C code links atoms by pointer; here a bond names the other atom by its
 * index in the molecule's array. The graph the bonds describe, the set of
 * checked atoms and the positions are the abstract views that the contracts
 * speak in; Traversal and VectorMath say what those views mean.
 */
module Conformation {
  import opened Traversal
  import opened VectorMath

  /** INITIAL_BONDS: the capacity of a fresh atom's bond buffer. */
  const InitialBonds: int := 5

  /**
   * struct Atom. `bonds` is the heap buffer of neighbours, of which the first
   * `nBonds` entries are in use and `limBonds` are allocated.
   */
  datatype Atom = Atom(v: Vector, rotate: bool, check: bool, nBonds: int, limBonds: int, bonds: array<int>)

  /** What a walk does to each atom it reaches, besides checking it. */
  datatype Action =
    | Show
    | Spin(axis: Vector, offset: Vector, ct: real, st: real)

  /**
   * The three steps of rotate on one position: sub_vector, rodrigues_rotation
   * and add_vector (main.c:147-149).
   */
  function Moved(p: Vector, axis: Vector, offset: Vector, ct: real, st: real): Vector {
    Add(Rodrigues(Sub(p, offset), axis, ct, st), offset)
  }

  /**
   * Turning about a unit axis keeps the distance between any two positions:
   * the moved atoms turn as one rigid body.
   */
  lemma MovedKeepsDistance(p: Vector, q: Vector, axis: Vector, offset: Vector, ct: real, st: real)
    requires NormSq(axis) == 1.0 && ct * ct + st * st == 1.0
    ensures DistSq(Moved(p, axis, offset, ct, st), Moved(q, axis, offset, ct, st)) == DistSq(p, q)
  {
    var m := RotationMatrix(axis, ct, st);
    var rp, rq := Rodrigues(Sub(p, offset), axis, ct, st), Rodrigues(Sub(q, offset), axis, ct, st);
    ApplySub(m, Sub(p, offset), Sub(q, offset));
    assert Sub(Sub(p, offset), Sub(q, offset)) == Sub(p, q);
    assert Sub(Add(rp, offset), Add(rq, offset)) == Sub(rp, rq);
    RodriguesPreservesNorm(Sub(p, q), axis, ct, st);
  }

  /** The offset is on the axis of the turn, so it stays where it is. */
  lemma MovedFixesOffset(offset: Vector, axis: Vector, ct: real, st: real)
    requires NormSq(axis) == 1.0
    ensures Moved(offset, axis, offset, ct, st) == offset
  {
    assert Sub(offset, offset) == Scale(0.0, axis);
    RodriguesFixesAxis(0.0, axis, ct, st);
  }

  /** Every point of the axis through the offset stays where it is. */
  lemma MovedFixesAxis(k: real, axis: Vector, offset: Vector, ct: real, st: real)
    requires NormSq(axis) == 1.0
    ensures Moved(Add(Scale(k, axis), offset), axis, offset, ct, st) == Add(Scale(k, axis), offset)
  {
    SubAdd(Scale(k, axis), offset);
    RodriguesFixesAxis(k, axis, ct, st);
  }

  /** A turn by the zero angle (cos 1, sin 0) moves nothing. */
  lemma MovedIdentity(p: Vector, axis: Vector, offset: Vector)
    ensures Moved(p, axis, offset, 1.0, 0.0) == p
  {
    RodriguesIdentity(Sub(p, offset), axis);
    SubAdd(p, offset);
  }

  /** Turning back by the opposite angle (sin negated) undoes a turn. */
  lemma MovedInverse(p: Vector, axis: Vector, offset: Vector, ct: real, st: real)
    requires NormSq(axis) == 1.0 && ct * ct + st * st == 1.0
    ensures Moved(Moved(p, axis, offset, ct, st), axis, offset, ct, -st) == p
  {
    var r := Rodrigues(Sub(p, offset), axis, ct, st);
    SubAdd(r, offset);
    RodriguesInverse(Sub(p, offset), axis, ct, st);
    SubAdd(p, offset);
  }

  /** The positions after a turn that moved the atoms `moved`. */
  function SpinAll(ps: seq<Vector>, moved: seq<int>, axis: Vector, offset: Vector, ct: real, st: real): (qs: seq<Vector>)
    ensures |qs| == |ps|
  {
    seq(|ps|, i requires 0 <= i < |ps| => if i in moved then Moved(ps[i], axis, offset, ct, st) else ps[i])
  }

  /** An atom the turn did not move keeps its position. */
  lemma SpinAllKeeps(ps: seq<Vector>, moved: seq<int>, axis: Vector, offset: Vector, ct: real, st: real, i: int)
    requires 0 <= i < |ps| && i !in moved
    ensures SpinAll(ps, moved, axis, offset, ct, st)[i] == ps[i]
  {
  }

  /** An atom the turn moved is at its turned position. */
  lemma SpinAllMoves(ps: seq<Vector>, moved: seq<int>, axis: Vector, offset: Vector, ct: real, st: real, i: int)
    requires 0 <= i < |ps| && i in moved
    ensures SpinAll(ps, moved, axis, offset, ct, st)[i] == Moved(ps[i], axis, offset, ct, st)
  {
  }

  /**
   * A turn about a unit axis keeps the distance between two atoms that both
   * moved or both stayed, and between a moved atom and one sitting at the
   * offset: the bond lengths the turn touches are those of the pivot.
   */
  lemma SpinAllRigid(ps: seq<Vector>, moved: seq<int>, axis: Vector, offset: Vector, ct: real, st: real, i: int, j: int)
    requires NormSq(axis) == 1.0 && ct * ct + st * st == 1.0
    requires 0 <= i < |ps| && 0 <= j < |ps|
    requires (i in moved <==> j in moved) || ps[j] == offset
    ensures var qs := SpinAll(ps, moved, axis, offset, ct, st);
      DistSq(qs[i], qs[j]) == DistSq(ps[i], ps[j])
  {
    var qs := SpinAll(ps, moved, axis, offset, ct, st);
    MovedKeepsDistance(ps[i], ps[j], axis, offset, ct, st);
    if ps[j] == offset {
      MovedFixesOffset(offset, axis, ct, st);
      assert qs[j] == offset;
    }
  }

  /** A turn by the zero angle leaves every position of the molecule as it was. */
  lemma SpinAllIdentity(ps: seq<Vector>, moved: seq<int>, axis: Vector, offset: Vector)
    ensures SpinAll(ps, moved, axis, offset, 1.0, 0.0) == ps
  {
    var qs := SpinAll(ps, moved, axis, offset, 1.0, 0.0);
    forall i | 0 <= i < |ps| ensures qs[i] == ps[i] {
      MovedIdentity(ps[i], axis, offset);
    }
  }

  /**
   * Turning the same atoms back by the opposite angle about the same unit
   * axis restores every position of the molecule.
   */
  lemma SpinAllInverse(ps: seq<Vector>, moved: seq<int>, axis: Vector, offset: Vector, ct: real, st: real)
    requires NormSq(axis) == 1.0 && ct * ct + st * st == 1.0
    ensures SpinAll(SpinAll(ps, moved, axis, offset, ct, st), moved, axis, offset, ct, -st) == ps
  {
    var qs := SpinAll(ps, moved, axis, offset, ct, st);
    var rs := SpinAll(qs, moved, axis, offset, ct, -st);
    forall i | 0 <= i < |ps| ensures rs[i] == ps[i] {
      if i in moved {
        MovedInverse(ps[i], axis, offset, ct, st);
      }
    }
  }

  /** The two ends of an axis of positive length are different points. */
  lemma DistinctEnds(p: Vector, q: Vector, n: real)
    requires n > 0.0 && n * n == NormSq(Sub(p, q))
    ensures p != q
  {
    if p == q {
      assert Sub(p, q) == Vector(0.0, 0.0, 0.0);
      PositiveProduct(n, n, n * n);
    }
  }

  /** A turn about the axis from `a` to `b` through `a` leaves `b` where it is. */
  lemma SpinFixesPivot(ps: seq<Vector>, moved: seq<int>, a: int, b: int, n: real, ct: real, st: real)
    requires 0 <= a < |ps| && 0 <= b < |ps|
    requires n > 0.0 && n * n == NormSq(Sub(ps[b], ps[a]))
    ensures SpinAll(ps, moved, Normalise(Sub(ps[b], ps[a]), n), ps[a], ct, st)[b] == ps[b]
  {
    var axis := Normalise(Sub(ps[b], ps[a]), n);
    if b in moved {
      SubAdd(ps[b], ps[a]);
      MovedFixesAxis(n, axis, ps[a], ct, st);
    }
  }

  /** What print_molecule prints for each atom it reaches: its position. */
  function Printed(ps: seq<Vector>, order: seq<int>): (lines: seq<Vector>)
    requires forall k :: 0 <= k < |order| ==> 0 <= order[k] < |ps|
    ensures |lines| == |order| && forall k :: 0 <= k < |order| ==> lines[k] == ps[order[k]]
  {
    if order == [] then [] else Printed(ps, order[..|order| - 1]) + [ps[order[|order| - 1]]]
  }

  /** Printing every atom in index order prints the positions themselves. */
  lemma PrintedInOrder(ps: seq<Vector>, order: seq<int>)
    requires |order| == |ps| && forall k :: 0 <= k < |order| ==> order[k] == k
    ensures Printed(ps, order) == ps
  {
  }

  /** A line of print_moleculef: the position and the number of bonds. */
  datatype Line = Line(v: Vector, nBonds: int)

  /** What print_moleculef prints for each atom it reaches. */
  function PrintedF(A: seq<Atom>, order: seq<int>): (lines: seq<Line>)
    requires forall k :: 0 <= k < |order| ==> 0 <= order[k] < |A|
    ensures |lines| == |order|
    ensures forall k :: 0 <= k < |order| ==> lines[k] == Line(A[order[k]].v, A[order[k]].nBonds)
  {
    if order == [] then []
    else PrintedF(A, order[..|order| - 1]) + [Line(A[order[|order| - 1]].v, A[order[|order| - 1]].nBonds)]
  }

  /** A walk that only marks atoms leaves every printed line as it was. */
  lemma ShowKeepsLines(A: seq<Atom>, visited: seq<int>, order: seq<int>)
    requires forall k :: 0 <= k < |order| ==> 0 <= order[k] < |A|
    ensures PrintedF(VisitAll(A, visited, Show), order) == PrintedF(A, order)
  {
    var B := VisitAll(A, visited, Show);
    assert forall k :: 0 <= k < |order| ==> B[order[k]].v == A[order[k]].v && B[order[k]].nBonds == A[order[k]].nBonds;
  }

  /** The atom after a walk reaches it: checked, and moved when spinning. */
  function Visit(a: Atom, act: Action): Atom {
    match act
    case Show => a.(check := true)
    case Spin(axis, offset, ct, st) => a.(check := true, v := Moved(a.v, axis, offset, ct, st))
  }

  /** The atoms after a walk that acted on `order`: those acted on are visited, the rest as they were. */
  function VisitAll(A: seq<Atom>, order: seq<int>, act: Action): (B: seq<Atom>)
    ensures |B| == |A|
    ensures forall j :: 0 <= j < |A| && j !in order ==> B[j] == A[j]
  {
    seq(|A|, j requires 0 <= j < |A| => if j in order then Visit(A[j], act) else A[j])
  }

  /** Two walks that act on disjoint atoms do what one walk over both does. */
  lemma VisitAllConcat(A: seq<Atom>, o1: seq<int>, o2: seq<int>, act: Action)
    requires forall j :: j in o2 ==> j !in o1
    ensures VisitAll(VisitAll(A, o1, act), o2, act) == VisitAll(A, o1 + o2, act)
  {
    var B, C, D := VisitAll(A, o1, act), VisitAll(VisitAll(A, o1, act), o2, act), VisitAll(A, o1 + o2, act);
    forall j | 0 <= j < |A| ensures C[j] == D[j] {
      if j in o2 {
        assert B[j] == A[j];
      }
    }
  }

  /**
   * add_atom: the atom at (x, y, z) with no bonds, both flags false and a
   * fresh buffer of INITIAL_BONDS slots.
   */
  method AddAtom(x: real, y: real, z: real) returns (a: Atom)
    ensures a.v == Vector(x, y, z) && !a.rotate && !a.check
    ensures a.nBonds == 0 && a.limBonds == InitialBonds
    ensures fresh(a.bonds) && a.bonds.Length == InitialBonds
  {
    var buffer := new int[InitialBonds];
    a := Atom(Vector(x, y, z), false, false, 0, InitialBonds, buffer);
  }

  /**
   * realloc of a bond buffer to `size` slots: a fresh buffer that starts with
   * the old contents.
   */
  method Grow(buffer: array<int>, size: int) returns (r: array<int>)
    requires buffer.Length <= size
    ensures fresh(r) && r.Length == size && r[..buffer.Length] == buffer[..]
  {
    r := new int[size];
    var i := 0;
    while i < buffer.Length
      invariant 0 <= i <= buffer.Length
      invariant r[..i] == buffer[..i]
    {
      r[i] := buffer[i];
      i := i + 1;
    }
  }

  /**
   * The capacity after a bond is added: twice the old one exactly when the
   * count has reached it.
   */
  function Doubled(count: int, limit: int): int {
    if count >= limit then 2 * limit else limit
  }

  /**
   * `after` is `before` with `x` appended to the bonds in use, `used`, and
   * the buffer doubled once the count has reached its size; position and
   * flags are as they were.
   */
  ghost predicate Appended(before: Atom, after: Atom, x: int, used: seq<int>)
    reads after.bonds
  {
    && after.v == before.v && after.rotate == before.rotate && after.check == before.check
    && after.nBonds == before.nBonds + 1
    && after.limBonds == Doubled(before.nBonds + 1, before.limBonds)
    && 0 < after.nBonds < after.limBonds == after.bonds.Length
    && InUse(after) == used + [x]
  }

  /**
   * One side of add_bond: `x` written into the first free slot, the count
   * raised, and the buffer doubled once it is full (main.c:51-58).
   */
  method Append(atom: Atom, x: int) returns (r: Atom)
    requires 0 <= atom.nBonds < atom.limBonds == atom.bonds.Length
    modifies atom.bonds
    ensures Appended(atom, r, x, old(InUse(atom)))
    ensures r.bonds == atom.bonds || fresh(r.bonds)
  {
    atom.bonds[atom.nBonds] := x;
    r := atom.(nBonds := atom.nBonds + 1);
    if r.nBonds >= r.limBonds {
      var grown := Grow(r.bonds, 2 * r.limBonds);
      r := r.(limBonds := 2 * r.limBonds, bonds := grown);
    }
  }

  /**
   * An atom of a molecule of `n` atoms: fewer bonds than slots, as many slots
   * as its buffer holds, and every bond in use naming one of the `n` atoms.
   */
  ghost predicate AtomValid(atom: Atom, n: int)
    reads atom.bonds
  {
    && 0 <= atom.nBonds < atom.limBonds == atom.bonds.Length
    && forall k :: 0 <= k < atom.nBonds ==> 0 <= atom.bonds[k] < n
  }

  /** The bonds of an atom that are in use. */
  ghost function InUse(atom: Atom): seq<int>
    reads atom.bonds
    requires 0 <= atom.nBonds <= atom.bonds.Length
  {
    atom.bonds[..atom.nBonds]
  }

  /** struct Molecule: `atoms` plays the part of `as`, its length `n_atoms`. */
  class Molecule {
    var atoms: array<Atom>

    /** The bond buffers of all atoms. */
    ghost function Buffers(): set<array<int>>
      reads this, atoms
    {
      set i | 0 <= i < atoms.Length :: atoms[i].bonds
    }

    /**
     * Every atom keeps `n_bonds < lim_bonds` with `lim_bonds` the size of its
     * buffer and every bond in use names one of the `n` atoms, and no two
     * atoms share a buffer.
     */
    ghost predicate Valid()
      reads this, atoms, Buffers()
    {
      && (forall i :: 0 <= i < atoms.Length ==> AtomValid(atoms[i], atoms.Length))
      && SeparateBuffers()
    }

    /** No two atoms share a bond buffer. */
    predicate SeparateBuffers()
      reads this, atoms
    {
      forall i, j :: 0 <= i < j < atoms.Length ==> atoms[i].bonds != atoms[j].bonds
    }

    /** The bond graph: each atom's neighbours in use, in the order bonded. */
    ghost function Graph(): (G: Graph)
      reads this, atoms, Buffers()
      requires Valid()
      ensures |G| == atoms.Length && Closed(G)
      ensures forall i :: 0 <= i < atoms.Length ==> G[i] == InUse(atoms[i])
    {
      seq(atoms.Length, i reads this, atoms, Buffers() requires 0 <= i < atoms.Length && Valid() =>
        InUse(atoms[i]))
    }

    /** The atoms whose `check` flag is set. */
    ghost function Checked(): set<int>
      reads this, atoms
    {
      set i | 0 <= i < atoms.Length && atoms[i].check
    }

    function Positions(): (ps: seq<Vector>)
      reads this, atoms
      ensures |ps| == atoms.Length && forall i :: 0 <= i < |ps| ==> ps[i] == atoms[i].v
    {
      seq(atoms.Length, i reads this, atoms requires 0 <= i < atoms.Length => atoms[i].v)
    }

    /**
     * The molecule of main: an array of `|ps|` atoms, each set up by
     * add_atom at its position (main.c:218-222).
     */
    constructor (ps: seq<Vector>)
      ensures Valid() && fresh(atoms) && atoms.Length == |ps|
      ensures Positions() == ps && Checked() == {}
      ensures Graph() == seq(|ps|, i => [])
      ensures forall i :: 0 <= i < |ps| ==> !atoms[i].rotate && atoms[i].limBonds == InitialBonds
      ensures forall i :: 0 <= i < |ps| ==> fresh(atoms[i].bonds)
    {
      var made: seq<Atom> := [];
      while |made| < |ps|
        invariant |made| <= |ps|
        invariant forall i :: 0 <= i < |made| ==>
          made[i].v == ps[i] && !made[i].rotate && !made[i].check && made[i].nBonds == 0
          && made[i].limBonds == InitialBonds && made[i].bonds.Length == InitialBonds
        invariant forall i, j :: 0 <= i < j < |made| ==> made[i].bonds != made[j].bonds
        invariant forall i :: 0 <= i < |made| ==> fresh(made[i].bonds)
      {
        var p := ps[|made|];
        var a := AddAtom(p.x, p.y, p.z);
        made := made + [a];
      }
      atoms := new Atom[|made|](i requires 0 <= i < |made| => made[i]);
      new;
      assert forall i :: 0 <= i < |ps| ==> atoms[i] == made[i];
      assert Graph() == seq(|ps|, i => []);
    }

    /**
     * reset_check: every `check` flag cleared; positions, `rotate` flags and
     * bonds untouched (main.c:42-48).
     */
    method ResetCheck()
      requires Valid()
      modifies atoms
      ensures Valid() && Checked() == {}
      ensures forall i :: 0 <= i < atoms.Length ==> atoms[i] == old(atoms[i]).(check := false)
      ensures Graph() == old(Graph()) && Positions() == old(Positions())
    {
      ghost var A0, G := atoms[..], Graph();
      for i := 0 to atoms.Length
        invariant forall j :: 0 <= j < i ==> atoms[j] == old(atoms[j]).(check := false)
        invariant forall j :: i <= j < atoms.Length ==> atoms[j] == old(atoms[j])
      {
        atoms[i] := atoms[i].(check := false);
      }
      SameShape(A0, G);
    }

    /** The checked set and the positions depend only on each atom's `check` flag and position. */
    lemma SameMarks(A0: seq<Atom>)
      requires |A0| == atoms.Length
      requires forall i :: 0 <= i < |A0| ==> atoms[i].v == A0[i].v && atoms[i].check == A0[i].check
      ensures Checked() == set i | 0 <= i < |A0| && A0[i].check
      ensures Positions() == seq(|A0|, i requires 0 <= i < |A0| => A0[i].v)
    {
    }

    /**
     * Atoms that keep their bond buffers and counts keep the molecule valid
     * and its bond graph as it was.
     */
    lemma SameShape(A0: seq<Atom>, G: Graph)
      requires |A0| == atoms.Length == |G|
      requires forall j :: 0 <= j < |A0| ==> AtomValid(A0[j], |A0|) && InUse(A0[j]) == G[j]
      requires forall i, j :: 0 <= i < j < |A0| ==> A0[i].bonds != A0[j].bonds
      requires forall j :: 0 <= j < |A0| ==>
        atoms[j].bonds == A0[j].bonds && atoms[j].nBonds == A0[j].nBonds && atoms[j].limBonds == A0[j].limBonds
      ensures Valid() && Graph() == G
    {
      forall j | 0 <= j < |A0|
        ensures AtomValid(atoms[j], atoms.Length) && InUse(atoms[j]) == G[j]
      {
        assert AtomValid(A0[j], |A0|) && InUse(A0[j]) == G[j];
      }
      assert Graph() == G;
    }

    /**
     * The writes of add_bond: `b` appended to the bonds of `a` and `a` to
     * those of `b`, each buffer grown when full (main.c:51-62); every other
     * atom and its buffer untouched.
     */
    method Link(a: int, b: int)
      requires 0 <= a < atoms.Length && 0 <= b < atoms.Length && a != b && SeparateBuffers()
      requires 0 <= atoms[a].nBonds < atoms[a].limBonds == atoms[a].bonds.Length
      requires 0 <= atoms[b].nBonds < atoms[b].limBonds == atoms[b].bonds.Length
      modifies atoms, atoms[a].bonds, atoms[b].bonds
      ensures SeparateBuffers()
      ensures forall i :: 0 <= i < atoms.Length && i != a && i != b ==>
        atoms[i] == old(atoms[i]) && unchanged(atoms[i].bonds)
      ensures Appended(old(atoms[a]), atoms[a], b, old(InUse(atoms[a])))
      ensures Appended(old(atoms[b]), atoms[b], a, old(InUse(atoms[b])))
      ensures atoms[a].bonds == old(atoms[a].bonds) || fresh(atoms[a].bonds)
      ensures atoms[b].bonds == old(atoms[b].bonds) || fresh(atoms[b].bonds)
    {
      ghost var old0 := atoms[..];
      var A := Append(atoms[a], b);
      var B := Append(atoms[b], a);
      assert A.bonds != B.bonds;
      assert forall i :: 0 <= i < |old0| && i != a && i != b ==>
        old0[i].bonds != A.bonds && old0[i].bonds != B.bonds;
      atoms[a], atoms[b] := A, B;
    }

    /**
     * The state add_bond leaves: the atoms other than `a` and `b` valid with
     * the bonds of `G`, and `a`, `b` each with the other appended, make a
     * valid molecule whose graph is `G` with the edge between `a` and `b`.
     */
    lemma ValidAfterLink(a: int, b: int, G: Graph)
      requires |G| == atoms.Length && Closed(G) && 0 <= a < |G| && 0 <= b < |G| && a != b
      requires SeparateBuffers()
      requires forall i :: 0 <= i < atoms.Length && i != a && i != b ==>
        AtomValid(atoms[i], atoms.Length) && InUse(atoms[i]) == G[i]
      requires 0 < atoms[a].nBonds < atoms[a].limBonds == atoms[a].bonds.Length && InUse(atoms[a]) == G[a] + [b]
      requires 0 < atoms[b].nBonds < atoms[b].limBonds == atoms[b].bonds.Length && InUse(atoms[b]) == G[b] + [a]
      ensures Valid() && Graph() == AddEdge(G, a, b)
    {
      var H := AddEdge(G, a, b);
      AddEdgeClosed(G, a, b);
      forall i | 0 <= i < atoms.Length
        ensures AtomValid(atoms[i], atoms.Length) && InUse(atoms[i]) == H[i]
      {
        if i == a || i == b {
          assert forall k :: 0 <= k < atoms[i].nBonds ==> atoms[i].bonds[k] == H[i][k];
        }
      }
      assert Graph() == H;
    }

    /**
     * add_bond for two distinct atoms: each becomes the new last neighbour
     * of the other, and a buffer that has filled up is reallocated at twice
     * its size (main.c:50-64).
     */
    method AddBond(a: int, b: int)
      requires Valid() && 0 <= a < atoms.Length && 0 <= b < atoms.Length && a != b
      modifies atoms, atoms[a].bonds, atoms[b].bonds
      ensures Valid()
      ensures Graph() == AddEdge(old(Graph()), a, b)
      ensures Symmetric(old(Graph())) ==> Symmetric(Graph())
      ensures Checked() == old(Checked()) && Positions() == old(Positions())
      ensures forall i :: 0 <= i < atoms.Length && i != a && i != b ==> atoms[i] == old(atoms[i])
      ensures atoms[a].nBonds == old(atoms[a].nBonds) + 1 && atoms[b].nBonds == old(atoms[b].nBonds) + 1
      ensures atoms[a].limBonds == Doubled(old(atoms[a].nBonds) + 1, old(atoms[a].limBonds))
      ensures atoms[b].limBonds == Doubled(old(atoms[b].nBonds) + 1, old(atoms[b].limBonds))
      ensures atoms[a].rotate == old(atoms[a].rotate) && atoms[b].rotate == old(atoms[b].rotate)
      ensures atoms[a].bonds == old(atoms[a].bonds) || fresh(atoms[a].bonds)
      ensures atoms[b].bonds == old(atoms[b].bonds) || fresh(atoms[b].bonds)
    {
      ghost var G, old0 := Graph(), atoms[..];
      SameMarks(old0);
      Link(a, b);
      forall i | 0 <= i < atoms.Length && i != a && i != b
        ensures AtomValid(atoms[i], atoms.Length) && InUse(atoms[i]) == G[i]
      {
        assert old(AtomValid(atoms[i], atoms.Length) && InUse(atoms[i]) == G[i]);
      }
      ValidAfterLink(a, b, G);
      SameMarks(old0);
      if Symmetric(G) {
        AddEdgeSymmetric(G, a, b);
      }
    }

    /**
     * The recursion shared by rotate, print_molecule and print_moleculef
     * (main.c:143-155, 89-100, 74-87): an atom already checked ends the walk;
     * otherwise it is checked and acted on, then the walk goes on from each
     * of its bonds in order. The atoms acted on, in order, are `order`, and
     * the walk is the pre-order search `Dfs` of the bond graph.
     */
    method Walk(s: int, act: Action) returns (order: seq<int>)
      requires Valid() && 0 <= s < atoms.Length
      modifies atoms
      ensures Valid() && Graph() == old(Graph())
      ensures order == Dfs(old(Graph()), s, old(Checked())).0
      ensures Checked() == Dfs(old(Graph()), s, old(Checked())).1
      ensures atoms[..] == VisitAll(old(atoms[..]), order, act)
      decreases Unchecked(Graph(), Checked()), 0
    {
      ghost var G, C0, A0 := Graph(), Checked(), atoms[..];
      if atoms[s].check {
        return [];
      }
      VisitAtom(s, act);
      assert s in Unchecked(G, C0) && s !in Unchecked(G, C0 + {s});
      var rest := WalkBonds(s, act);
      assert forall j :: j in rest ==> j != s;
      VisitAllConcat(A0, [s], rest, act);
      order := [s] + rest;
    }

    /** One atom reached by a walk: checked and acted on (main.c:146-149). */
    method VisitAtom(s: int, act: Action)
      requires Valid() && 0 <= s < atoms.Length
      modifies atoms
      ensures Valid() && Graph() == old(Graph())
      ensures Checked() == old(Checked()) + {s}
      ensures atoms[..] == VisitAll(old(atoms[..]), [s], act)
    {
      ghost var A0, G := atoms[..], Graph();
      atoms[s] := Visit(atoms[s], act);
      SameShape(A0, G);
    }

    /** The loop of the walk over the bonds of `s`, in order (main.c:151-153). */
    method WalkBonds(s: int, act: Action) returns (order: seq<int>)
      requires Valid() && 0 <= s < atoms.Length
      modifies atoms
      ensures Valid() && Graph() == old(Graph())
      ensures order == DfsList(old(Graph()), old(Graph())[s], old(Checked())).0
      ensures Checked() == DfsList(old(Graph()), old(Graph())[s], old(Checked())).1
      ensures atoms[..] == VisitAll(old(atoms[..]), order, act)
      decreases Unchecked(Graph(), Checked()), 3
    {
      ghost var G, C0, A0 := Graph(), Checked(), atoms[..];
      order := [];
      var i := 0;
      while i < atoms[s].nBonds
        invariant Valid() && Graph() == G && 0 <= i <= |G[s]|
        invariant order == DfsList(G, G[s][..i], C0).0
        invariant Checked() == DfsList(G, G[s][..i], C0).1
        invariant atoms[..] == VisitAll(A0, order, act)
      {
        UncheckedShrinks(G, C0, Checked());
        order := WalkBondStep(s, i, act, G, C0, A0, order);
        i := i + 1;
      }
      assert G[s][..i] == G[s];
    }

    /** The invariant of that loop carried over the `i`-th bond of `s`. */
    method WalkBondStep(s: int, i: int, act: Action, ghost G: Graph, ghost C0: set<int>, ghost A0: seq<Atom>, order: seq<int>)
      returns (next: seq<int>)
      requires Valid() && Graph() == G && 0 <= s < |G| && 0 <= i < |G[s]|
      requires order == DfsList(G, G[s][..i], C0).0 && Checked() == DfsList(G, G[s][..i], C0).1
      requires atoms[..] == VisitAll(A0, order, act)
      modifies atoms
      ensures Valid() && Graph() == G
      ensures next == DfsList(G, G[s][..i + 1], C0).0 && Checked() == DfsList(G, G[s][..i + 1], C0).1
      ensures atoms[..] == VisitAll(A0, next, act)
      decreases Unchecked(Graph(), Checked()), 2
    {
      DfsListSnoc(G, G[s][..i], G[s][i], C0);
      TakeOneMore(G[s], i);
      var o := WalkBond(s, i, act);
      VisitAllConcat(A0, order, o, act);
      next := order + o;
    }

    /** One pass of that loop: the walk from the `i`-th bond of `s`. */
    method WalkBond(s: int, i: int, act: Action) returns (o: seq<int>)
      requires Valid() && 0 <= s < atoms.Length && 0 <= i < atoms[s].nBonds
      modifies atoms
      ensures Valid() && Graph() == old(Graph())
      ensures o == Dfs(old(Graph()), old(Graph())[s][i], old(Checked())).0
      ensures Checked() == Dfs(old(Graph()), old(Graph())[s][i], old(Checked())).1
      ensures atoms[..] == VisitAll(old(atoms[..]), o, act)
      ensures forall j :: j in o ==> j !in old(Checked())
      decreases Unchecked(Graph(), Checked()), 1
    {
      assert InUse(atoms[s]) == Graph()[s];
      o := Walk(atoms[s].bonds[i], act);
    }

    /**
     * rotate: every atom the walk from `s` reaches is turned about `axis`
     * through `offset` by the angle whose cosine and sine are `ct`, `st`
     * (main.c:143-155).
     */
    method Rotate(s: int, axis: Vector, offset: Vector, ct: real, st: real) returns (moved: seq<int>)
      requires Valid() && 0 <= s < atoms.Length
      modifies atoms
      ensures Valid() && Graph() == old(Graph())
      ensures moved == Dfs(old(Graph()), s, old(Checked())).0
      ensures Checked() == Dfs(old(Graph()), s, old(Checked())).1
      ensures atoms[..] == VisitAll(old(atoms[..]), moved, Spin(axis, offset, ct, st))
      ensures Positions() == SpinAll(old(Positions()), moved, axis, offset, ct, st)
    {
      ghost var P0 := Positions();
      moved := Walk(s, Spin(axis, offset, ct, st));
      assert Positions() == SpinAll(P0, moved, axis, offset, ct, st);
    }

    /** The lines print_molecule writes for the atoms `order`, in that order (main.c:94). */
    method PrintedLines(order: seq<int>) returns (lines: seq<Vector>)
      requires forall k :: 0 <= k < |order| ==> 0 <= order[k] < atoms.Length
      ensures lines == Printed(Positions(), order)
    {
      lines := [];
      for k := 0 to |order|
        invariant lines == Printed(Positions(), order[..k])
      {
        assert order[..k + 1][..k] == order[..k];
        lines := lines + [atoms[order[k]].v];
      }
      assert order[..|order|] == order;
    }

    /** The lines print_moleculef writes for the atoms `order`, in that order (main.c:79-81). */
    method PrintedLinesF(order: seq<int>) returns (lines: seq<Line>)
      requires forall k :: 0 <= k < |order| ==> 0 <= order[k] < atoms.Length
      ensures lines == PrintedF(atoms[..], order)
    {
      lines := [];
      for k := 0 to |order|
        invariant lines == PrintedF(atoms[..], order[..k])
      {
        assert order[..k + 1][..k] == order[..k];
        lines := lines + [Line(atoms[order[k]].v, atoms[order[k]].nBonds)];
      }
      assert order[..|order|] == order;
    }

    /** The walk print_molecule and print_moleculef make: atoms are checked and nothing moves. */
    method ShowWalk(s: int) returns (order: seq<int>)
      requires Valid() && 0 <= s < atoms.Length
      modifies atoms
      ensures Valid() && Graph() == old(Graph()) && Positions() == old(Positions())
      ensures order == Dfs(old(Graph()), s, old(Checked())).0
      ensures Checked() == Dfs(old(Graph()), s, old(Checked())).1
      ensures atoms[..] == VisitAll(old(atoms[..]), order, Show)
    {
      ghost var P0 := Positions();
      order := Walk(s, Show);
      assert Positions() == P0;
    }

    /**
     * print_molecule: the positions of the atoms the walk from `s` reaches,
     * one line each in the order reached; nothing moves (main.c:89-100).
     */
    method PrintMolecule(s: int) returns (lines: seq<Vector>)
      requires Valid() && 0 <= s < atoms.Length
      modifies atoms
      ensures Valid() && Graph() == old(Graph()) && Positions() == old(Positions())
      ensures lines == Printed(old(Positions()), Dfs(old(Graph()), s, old(Checked())).0)
      ensures Checked() == Dfs(old(Graph()), s, old(Checked())).1
      ensures atoms[..] == VisitAll(old(atoms[..]), Dfs(old(Graph()), s, old(Checked())).0, Show)
    {
      var order := ShowWalk(s);
      lines := PrintedLines(order);
    }

    /**
     * print_moleculef: as print_molecule, with each line giving the atom's
     * position and number of bonds (main.c:74-87).
     */
    method PrintMoleculeF(s: int) returns (lines: seq<Line>)
      requires Valid() && 0 <= s < atoms.Length
      modifies atoms
      ensures Valid() && Graph() == old(Graph()) && Positions() == old(Positions())
      ensures lines == PrintedF(old(atoms[..]), Dfs(old(Graph()), s, old(Checked())).0)
      ensures Checked() == Dfs(old(Graph()), s, old(Checked())).1
      ensures atoms[..] == VisitAll(old(atoms[..]), Dfs(old(Graph()), s, old(Checked())).0, Show)
    {
      ghost var A0 := atoms[..];
      var order := ShowWalk(s);
      lines := PrintedLinesF(order);
      ShowKeepsLines(A0, order, order);
    }

    /** The first two writes of rotate_about: `a` checked and not to be rotated (main.c:172-173). */
    method Hold(a: int)
      requires Valid() && 0 <= a < atoms.Length
      modifies atoms
      ensures Valid() && Graph() == old(Graph())
      ensures Checked() == old(Checked()) + {a} && Positions() == old(Positions())
      ensures atoms[..] == old(atoms[..])[a := old(atoms[a]).(check := true, rotate := false)]
    {
      ghost var A0, G := atoms[..], Graph();
      atoms[a] := atoms[a].(check := true, rotate := false);
      SameShape(A0, G);
    }

    /**
     * rotate_about: the part of the molecule reached from `b` without passing
     * `a` turns about the axis from `a` to `b`, whose length `n` is given as
     * the positive root of its square (main.c:167-185). The atoms `a` and
     * `b` stay where they are.
     */
    method RotateAbout(a: int, b: int, ct: real, st: real, n: real) returns (moved: seq<int>)
      requires Valid() && 0 <= a < atoms.Length && 0 <= b < atoms.Length
      requires n > 0.0 && n * n == NormSq(Sub(atoms[b].v, atoms[a].v))
      modifies atoms
      ensures Valid() && Graph() == old(Graph())
      ensures moved == Dfs(old(Graph()), b, old(Checked()) + {a}).0
      ensures Checked() == Dfs(old(Graph()), b, old(Checked()) + {a}).1
      ensures a !in moved && atoms[a] == old(atoms[a]).(check := true, rotate := false)
      ensures Positions() == SpinAll(old(Positions()), moved,
        Normalise(Sub(old(atoms[b].v), old(atoms[a].v)), n), old(atoms[a].v), ct, st)
      ensures atoms[b].v == old(atoms[b].v)
      ensures atoms[..] == VisitAll(old(atoms[..])[a := old(atoms[a]).(check := true, rotate := false)], moved,
        Spin(Normalise(Sub(old(atoms[b].v), old(atoms[a].v)), n), old(atoms[a].v), ct, st))
    {
      ghost var P0 := Positions();
      DistinctEnds(atoms[b].v, atoms[a].v, n);
      Hold(a);
      var offset := atoms[a].v;
      var axis := Normalise(Sub(atoms[b].v, atoms[a].v), n);
      moved := Rotate(b, axis, offset, ct, st);
      SpinFixesPivot(P0, moved, a, b, n, ct, st);
    }
  }
}
