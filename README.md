# Conformation: a verified model of bond rotation in a small molecule

Conformation is a small C program that stores a molecule as an array of
atoms, each with a position, two flags (`rotate`, `check`) and a growable
buffer of pointers to the atoms it is bonded to. It builds a chain of four
atoms and prints it by a depth-first walk over the bonds. It then turns one
side of the molecule about the bond between two atoms with Rodrigues'
rotation formula, and prints it again.

This project models that program in Dafny and proves what its parts do:

- `VectorMath` (`vector_math.dfy`) covers the vector arithmetic and the
  rotation. `RotationMatrix` is the 3x3 matrix of `rodrigues_rotation`,
  entry by entry, `Rodrigues` applies it to a point, and `Normalise` is
  `normalise`. The proofs show the following:
  - the matrix is the textbook vector form of the formula;
  - it is the identity at angle zero;
  - it fixes every point of a unit axis;
  - it preserves length;
  - it is undone by the opposite angle.
- `Traversal` (`traversal.dfy`) is the bond graph as lists of atom indices.
  - `AddEdge` adds a bond, and the proofs show it keeps the graph closed and
    symmetric.
  - `Dfs` and `DfsList` are the pre-order depth-first search that the
    recursive C walks perform, starting from a set `C` of atoms already
    checked.
  - The proofs show that the search acts on exactly the atoms reachable
    without passing a checked atom, each of them once.
- `Conformation` (`molecule.dfy`) holds `struct Atom` as a datatype and
  `struct Molecule` as the class `Molecule`, whose `atoms` array the methods
  update in place. Each bond buffer is an `array<int>` of atom indices;
  `realloc` is a fresh array of twice the size with the old contents copied
  in.
  - Each method is proved against the bond graph, the checked set and the
    positions it leaves behind. Those three views are `Graph()`,
    `Checked()` and `Positions()`.
  - `rotate`, `print_molecule` and `print_moleculef` share one recursion,
    `Walk`. What it does to an atom is the `Action` it is given.
- `Example` (`example.dfy`) is `main` with its four-atom chain.
  - The proofs show which atoms `rotate_about(1, 2)` acts on (atoms 2 and 3).
  - They also give where main's atoms end up: atom 3 at (1 + cos, 2, -sin),
    the others where they were.
  - Finally, they give what the two print calls produce.

Angles enter through their cosine `ct` and sine `st`. The length of the
rotation axis enters as `n`, required to be the positive square root of
its squared length. Positions are real numbers. In C they are `float`.

## Model

| member | source | states |
|---|---|---|
| VectorMath.Add | main.c:135-141 | `add_vector`: componentwise sum; `SubAdd` proves that subtracting the same vector undoes it |
| VectorMath.Sub | main.c:127-133 | `sub_vector`: componentwise difference; `SubAdd` proves that adding the subtracted vector back restores the point |
| VectorMath.SubAdd | main.c:127-141 | `add_vector` and `sub_vector` with the same offset are inverse to each other, in both orders |
| VectorMath.Normalise | main.c:157-165 | the normalised axis has squared length 1, and scaling it by the length gives back the original vector |
| VectorMath.RotationMatrix | main.c:108-118 | the nine entries `R[0][0]` to `R[2][2]`; their meaning is given by `RodriguesVectorForm` |
| VectorMath.Rodrigues | main.c:102-125 | `rodrigues_rotation`: the matrix applied to the unmodified point; its meaning is given by `RodriguesVectorForm`, `RodriguesPreservesNorm`, `RodriguesFixesAxis` and `RodriguesInverse` |
| VectorMath.RodriguesVectorForm | main.c:102-125 | the matrix product computed entry by entry equals ct p + st (a x p) + (1 - ct)(a . p) a |
| VectorMath.RodriguesIdentity | main.c:102-125 | at angle zero (cos 1, sin 0) the rotation leaves every point where it is, for any axis |
| VectorMath.RodriguesFixesAxis | main.c:102-125 | every multiple of a unit axis is left where it is, for every angle |
| VectorMath.RodriguesPreservesNorm | main.c:102-125 | for a unit axis and cos^2 + sin^2 = 1, the rotated point has the same squared length as the original |
| VectorMath.RodriguesInverse | main.c:102-125 | rotating by the opposite angle (sine negated) undoes a rotation about a unit axis |
| VectorMath.ApplySub | main.c:120-122 | the matrix product commutes with taking differences, so rotation about an offset is well defined |
| Traversal.AddEdge | main.c:50-54 | the bond lists after `add_bond`: the atom count is kept; `AddEdgeClosed`, `AddEdgeSymmetric` and `AddEdgeCount` state the rest |
| Traversal.AddEdgeClosed | main.c:50-54 | adding a bond between two atoms of the molecule keeps every bond naming an atom of the molecule |
| Traversal.AddEdgeSymmetric | main.c:50-54 | adding a bond between distinct atoms keeps the bond relation symmetric, counting duplicates |
| Traversal.AddEdgeCount | main.c:50-54 | the bond `a`-`b` is counted once more in the list of `a` (towards `b`) and in the list of `b` (towards `a`); all other counts stay |
| Traversal.Dfs | main.c:143-155 | the walk marks a superset of the checked set; it acts on exactly the newly marked atoms, each once and all in range; it does nothing from a checked atom, and otherwise starts with the start atom |
| Traversal.DfsMarksReachable | main.c:143-155 | after the walk from `s`, an atom is checked iff it was already checked or is reachable from `s` without passing a checked atom |
| Traversal.DfsActsOnReachable | main.c:143-155 | the walk acts on each atom at most once, on exactly the atoms reachable without passing a checked atom, and checks exactly those atoms in addition to the old checked set |
| Traversal.DfsList | main.c:151-153 | the walks from the bonds of an atom, in order, each starting from the atoms checked so far; it only adds to the checked set, acts exactly on the atoms it newly checks, each once and all in range |
| Traversal.DfsListMarksReachable | main.c:151-153 | after walking from each bond in turn, an atom is checked iff it was already checked or is reachable from one of the bonded atoms |
| Traversal.DfsListSnoc | main.c:151-153 | walking one more bond appends the walk from that bond, started from the atoms checked so far |
| Conformation.Moved | main.c:147-149 | one atom turned by `rotate`: offset subtracted, rotated, offset added back; its meaning is given by `MovedKeepsDistance`, `MovedFixesAxis` and `MovedInverse` |
| Conformation.MovedKeepsDistance | main.c:147-149 | subtracting the offset, rotating about a unit axis and adding the offset back keeps the distance between any two points |
| Conformation.MovedFixesOffset | main.c:147-149 | the offset itself does not move |
| Conformation.MovedFixesAxis | main.c:147-149 | every point on the axis line through the offset does not move |
| Conformation.MovedIdentity | main.c:147-149 | a turn by angle zero moves no point |
| Conformation.MovedInverse | main.c:147-149 | turning back by the opposite angle returns every point to where it was |
| Conformation.SpinAll | main.c:143-155 | the positions after a turn: the atom count is kept; `SpinAllKeeps` and `SpinAllMoves` state what happens to atoms outside and inside `moved` |
| Conformation.SpinAllKeeps | main.c:143-155 | an atom the turn did not reach keeps its position |
| Conformation.SpinAllMoves | main.c:146-149 | an atom the turn reached is at its `Moved` position |
| Conformation.SpinAllRigid | main.c:143-155 | after a turn, two atoms that both moved or both stayed keep their distance; so do a moved atom and one at the offset |
| Conformation.SpinAllIdentity | main.c:143-155 | a turn of the molecule by angle zero leaves every position as it was |
| Conformation.SpinAllInverse | main.c:143-155 | turning the same atoms back by the opposite angle about the same unit axis and offset restores every position of the molecule |
| Conformation.SpinFixesPivot | main.c:181-183 | the atom `b` that defines the axis from `a` stays where it is, whether or not the walk turned it |
| Conformation.DistinctEnds | main.c:157-165 | an axis with a positive length has two different end points |
| Conformation.Printed | main.c:94 | one line per atom reached, the `k`-th holding the position of the `k`-th atom reached |
| Conformation.PrintedInOrder | main.c:89-100 | printing the atoms in index order prints the positions themselves |
| Conformation.PrintedF | main.c:79-81 | one line per atom reached, the `k`-th holding the position and bond count of the `k`-th atom reached |
| Conformation.ShowKeepsLines | main.c:74-87 | a walk that only checks atoms leaves every printed line unchanged |
| Conformation.Visit | main.c:146-149 | one atom reached by a walk: checked, and for `rotate` moved by `Moved`; bonds, counts and the `rotate` flag untouched |
| Conformation.VisitAll | main.c:146-149 | atoms the walk does not reach are unchanged, and the atom count is kept |
| Conformation.VisitAllConcat | main.c:151-153 | two walks over disjoint atoms do what one walk over both does |
| Conformation.AddAtom | main.c:30-40 | the atom sits at (x, y, z), has no bonds and both flags false, and owns a fresh buffer of INITIAL_BONDS slots |
| Conformation.Grow | main.c:57 | the reallocated buffer is fresh, has the requested size, and starts with the old contents |
| Conformation.Append | main.c:51-58 | the bonds in use are the old ones plus `x`; the count rises by one; capacity doubles exactly when the count reaches it; position and flags are unchanged |
| Conformation.Molecule.constructor | main.c:218-222 | a valid molecule with the given positions, no bonds, nothing checked and a fresh buffer per atom |
| Conformation.Molecule.ResetCheck | main.c:42-48 | every check flag is cleared; bonds, positions and rotate flags are unchanged |
| Conformation.Molecule.Link | main.c:51-62 | `b` is appended to the bonds of `a` and `a` to those of `b`, each buffer grown when full; every other atom and buffer is untouched |
| Conformation.Molecule.AddBond | main.c:50-64 | the molecule stays valid; its graph gains the bond `a`-`b` and stays symmetric if it was; counts rise by one and capacities double when full; checked set, positions and other atoms are unchanged |
| Conformation.Molecule.Walk | main.c:143-155 | the atoms acted on are the pre-order search `Dfs` from `s`, the checked set becomes the search's, each atom reached is visited, and the bonds are unchanged |
| Conformation.Molecule.VisitAtom | main.c:146-149 | the one atom is checked and acted on; the graph is unchanged |
| Conformation.Molecule.WalkBonds | main.c:151-153 | the loop over the bonds of `s` acts on the atoms of `DfsList` over those bonds, in order |
| Conformation.Molecule.WalkBondStep | main.c:151-153 | one pass of that loop carries its invariant from the first `i` bonds to the first `i + 1` |
| Conformation.Molecule.WalkBond | main.c:152 | the walk from the `i`-th bond acts only on atoms that were unchecked, as `Dfs` from that bond |
| Conformation.Molecule.Rotate | main.c:143-155 | the atoms reached from `s` are turned about the axis through the offset; every other position is unchanged; the graph is unchanged |
| Conformation.Molecule.PrintedLines | main.c:94 | the lines are `Printed` of the current positions for the given order |
| Conformation.Molecule.PrintedLinesF | main.c:79-81 | the lines are `PrintedF` of the current atoms for the given order |
| Conformation.Molecule.ShowWalk | main.c:89-100 | the print walk checks the atoms of `Dfs` from `s` and moves nothing |
| Conformation.Molecule.PrintMolecule | main.c:89-100 | prints the positions of the atoms reached from `s` in pre-order, checks them, and moves nothing |
| Conformation.Molecule.PrintMoleculeF | main.c:74-87 | prints position and bond count of the atoms reached from `s` in pre-order, checks them, and moves nothing |
| Conformation.Molecule.Hold | main.c:172-173 | `a` is checked and its rotate flag cleared; nothing else changes |
| Conformation.Molecule.RotateAbout | main.c:167-185 | exactly the atoms reachable from `b` without passing `a` (or a checked atom) turn about the unit axis from `a` to `b` through `a`; `a` and `b` stay in place; the whole atom array is `a` held and then the reached atoms visited, so every other atom keeps its flags, counts and buffer; bonds are unchanged |
| Example.Chain | main.c:223-225 | the bonds of main form a closed graph |
| Example.ChainBuilt | main.c:223-225 | adding the bonds 0-1, 1-2 and 2-3 to four unbonded atoms gives the chain `[[1], [0, 2], [1, 3], [2]]` |
| Example.FromTwo | main.c:230 | with atom 1 checked, the walk from atom 2 reaches atoms 2 and 3, in that order, and no others |
| Example.FromOne | main.c:228 | with atom 0 checked, the walk from atom 1 reaches atoms 1, 2 and 3 |
| Example.FromZero | main.c:228 | with no atom checked, the walk from atom 0 reaches the whole chain in index order |
| Example.AxisOfChain | main.c:181-182 | for main's positions the bond 1->2 has length 1 and its normalised axis is the unit y axis |
| Example.EndOfChain | main.c:147-149 | turned about the y axis through atom 1, atom 2 stays put and atom 3 lands at (1 + cos, 2, -sin) |
| Example.TurnedIsChain | main.c:230 | for main's positions, rotate_about(1, 2) is the turn about the y axis through atom 1 |
| Example.TurnKeepsBase | main.c:230 | main's turn leaves atoms 0 and 1 where they were |
| Example.TurnOfChain | main.c:230 | main's turn leaves atom 2 where it was and moves atom 3 to (1 + cos, 2, -sin) |
| Example.FromZeroPrints | main.c:228 | printed from atom 0, the chain prints every position in index order |
| Example.Bonded1 | main.c:218-223 | four fresh atoms with the bond 0-1, nothing checked, each atom owning a fresh buffer |
| Example.Bonded2 | main.c:218-224 | four fresh atoms with the bonds 0-1 and 1-2, nothing checked |
| Example.Build | main.c:218-225 | a fresh valid molecule whose graph is the chain, at the given positions, with nothing checked |
| Example.Turn | main.c:230 | on the freshly reset chain, rotate_about(1, 2) acts on exactly atoms 2 and 3 and leaves the `Turned` positions (atom 2 stays where it is) |
| Example.Run | main.c:204-237 | main prints the positions reached from `i` before and after the turn, and the turn acts on atoms 2 and 3; from atom 0 the printouts are the whole chain before and after the turn |

## Left out

- Floating point: positions are exact reals, not `float`. Rounding in `powf`, `sqrtf`, the matrix product and the additions is not modelled.
- `cos`, `sin` and `sqrtf` are not computed. The cosine and sine of the angle are the parameters `ct` and `st`. The identity cos^2 + sin^2 = 1 is assumed only by the lemmas that need it. The length of the axis is the parameter `n`, required to satisfy `n > 0` and `n * n` equal to the squared length.
- VectorMath.Normalise: a zero axis (`rotate_about` with two atoms at the same place) divides by zero in C; the model excludes it through the requirement on `n`.
- `printf` text is not modelled: each print operation returns the sequence of values it would print, one per line. The `"> "` indentation of `print_moleculef` (its parameter `n`) is left out, and so are the headings "Pre Rotation" and "Post Rotation".
- `read_xyz` (file I/O) is left out. `main` does not call it.
- `free_atoms` and `free` are left out: Dafny memory is garbage collected.
- `malloc` and `realloc` failure is not modelled; allocation always succeeds.
- Conformation.Molecule.AddBond: requires `a != b`. A self-bond in C writes both neighbour entries into one slot and raises the count by two; `main` never adds one.
- Conformation.Append: `lim_bonds *= 2` is unbounded in the model; the 32-bit overflow of `int` after about 2^30 bonds is not modelled.
- The `name` field of `struct Atom` is never read or written by the program and is not modelled.
- The `rotate` flag is set by `add_atom` and cleared by `rotate_about` but never read; the model keeps it and states how each operation changes it.
- Example.Run: `main` reads `i` with `atoi` and `theta` with `atof`. The model takes `i` as a parameter and `theta` as its cosine and sine. The model requires `0 <= i < 4`; in C a larger `i` indexes past the array.
- Example.Run: the run is stated for any four positions `ps` with the chain's bonds. `Example.TurnedIsChain` and `Example.TurnOfChain` give the result for main's own positions.
- Bonds are atom indices rather than pointers; the atoms of a molecule are the only atoms a bond can name, which `Molecule.Valid` states.
