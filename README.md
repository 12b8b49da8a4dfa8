# Vibration of a 3-D jacket frame: a verified model

This project models 3D_VIB_FRAME_AUG. That program computes the natural frequencies and mode
shapes of an offshore jacket foundation treated as a 3-D frame of beam elements. Each node
has six degrees of freedom: three translations and three rotations. The model covers:

- the element kernel: Gauss–Legendre rule selection, the Hermite/linear shape matrix, the
  strain interpolation matrix, the local-axes transformation, and the element stiffness and
  consistent mass matrices;
- global assembly: the DOF map, scatter-add, spring supports and the footing masses;
- constraint elimination, column normalisation of the modes, and re-expansion of a mode to
  all degrees of freedom;
- the `VIBframe` orchestration, including detection of the mill;
- the integer logic that builds the model: jacket connectivity (`buildC`), element
  subdivision (`indata`), the property table (`mprop`) and the 2-D line intersection;
- the sparse triplet rows the database stores, and their decoding back into the model's data.

The arithmetic is modelled in Dafny's `real`. Three operations are parameters with small
contracts:

- The vector norm, constrained by `IsNorm`: non-negative, its square is the squared length,
  and it is zero only at the origin.
- The square root, constrained by `IsSqrt`.
- The generalised symmetric eigensolver `scipy.linalg.eigh`, constrained by `IsEigensolver`:
  for an n × n problem it returns at most n eigenvalues, with one eigenvector column per
  eigenvalue, and each column `u_j` satisfies `K u_j = d_j M u_j`.

`np.allclose` is written out with its default tolerances, `rtol = 1e-5` and `atol = 1e-8`.

One Dafny file per source file, one module each:

- `quadrature.dfy`: intpL.
- `shape.dfy`: Nint.
- `strain.dfy`: Bint.
- `beam.dfy`: the 12-dof layout the two share, and rigid motions.
- `frame.dfy`: Abeam.
- `stiffness.dfy`: kbeam.
- `mass.dfy`: mbeam.
- `integral.dfy`: the quadrature loop of kbeam and mbeam.
- `springs.dfy`: kspring.
- `assembly.dfy`: the `np.ix_` scatter-add.
- `buildk.dfy`, `buildm.dfy`: buildK and buildM.
- `nfa.dfy`: NFA.
- `modeshape.dfy`: plotmodeshapes, lines 28-46.
- `vibframe.dfy`: VIBframe.
- `buildc.dfy`, `indata.dfy`, `mprop.dfy`, `geometry.dfy`: the model-input functions.
- `baseinsert.dfy`: baseinsert.
- `vibdata.dfy`: VIBdata.

Generic support lives in `sums.dfy`, `vectors.dfy`, `matrices.dfy`, `properties.dfy` (a
Python dict as an insertion-ordered association list), `structure.dfy` (elements, nodal rows
and the DOF map) and `wrappers.dfy`.

The code follows the source's own form:

- Loops over arrays are methods with invariants: the element scatter-add, the spring
  diagonal, the footing additions, the column normalisation, the `buildC` row filling, the
  `indata` subdivision loop, the `mprop` section loop and the triplet decoding.
- Each such method is proved against a specification function.
- The closed-form kernels are functions, with their properties stated as lemmas.
- `VIBframe` is a class whose methods assign the `M`, `K`, `omega` and `U` fields.

## Model

| member | source | states |
|---|---|---|
| Quadrature.IntpL | functions/Kmat/intpL.py:20-41 | An error exactly when PolDeg > 9; otherwise `xip` and `wip` have equal length n, and n is the least n ≥ 1 with 2n − 1 ≥ PolDeg |
| Quadrature.GaussPoint | functions/Kmat/intpL.py:25-38 | Every point lies in (−1, 1) and every weight is positive; the points increase strictly; point k mirrors point n−1−k and weight k equals weight n−1−k |
| Quadrature.GaussWellFormed | functions/Kmat/intpL.py:20-38 | Each table rule is well formed (points in (−1, 1), increasing, positive weights) and mirrored about 0 |
| Quadrature.IntpLWellFormed | functions/Kmat/intpL.py:20-38 | Every degree ≤ 9 returns a rule, and the rule is well formed and symmetric |
| Quadrature.MidpointRule | functions/Kmat/intpL.py:20-22 | PolDeg ≤ 1 gives the single point 0 with weight 2 |
| Quadrature.PointCountMonotone | functions/Kmat/intpL.py:20-41 | A larger degree (up to 9) never yields fewer points |
| ShapeFunction.Nint | functions/Mmat/Nint.py:27-30 | The shape matrix is 4 × 12 |
| ShapeFunction.PartitionOfUnity | functions/Mmat/Nint.py:19-24 | N1 + N4 = 1 and N2 + N5 = 1 at every s, read off the four rows of N |
| ShapeFunction.EndCoefficients | functions/Mmat/Nint.py:19-24 | At s = −1, N1 = N2 = 1 and the rest are 0; at s = 1, N4 = N5 = 1 and the rest are 0 |
| ShapeFunction.InterpolatesNodes | functions/Mmat/Nint.py:19-30 | At s = −1, N applied to the twelve nodal values gives node 1's three displacements and twist; at s = 1 it gives node 2's |
| ShapeFunction.FirstNodeValues | functions/Mmat/Nint.py:19-30 | The s = −1 half of InterpolatesNodes: the values u[0..3] |
| ShapeFunction.SecondNodeValues | functions/Mmat/Nint.py:19-30 | The s = 1 half: the values u[6..9] |
| ShapeFunction.HermiteIdentities | functions/Mmat/Nint.py:21-24 | The cubics reproduce constants (N2 + N5 = 1) and the axis coordinate (N3 + L·N5 + N6 = L·(1+s)/2) |
| ShapeFunction.ReproducesRigidMotion | functions/Mmat/Nint.py:19-30 | For any rigid motion (t, θ), N interpolates the translation t + θ × (x, 0, 0) and the twist θ.x at x = L(1+s)/2; a translation gives t in rows 0-2 and 0 in row 3 |
| StrainInterpolation.Bint | functions/Kmat/Bint.py:25-28 | The strain matrix is 4 × 12 for any s; it requires L ≠ 0 |
| StrainInterpolation.StrainCoefficients | functions/Kmat/Bint.py:17-22 | B1 + B4 = 0, B2 + B5 = 0, and B3 + L·B5 + B6 = 0 |
| StrainInterpolation.RigidMotionIsStrainFree | functions/Kmat/Bint.py:17-28 | B maps the nodal values of every rigid translation and rotation to the zero strain vector, at every s |
| StrainInterpolation.TranslationIsStrainFree | functions/Kmat/Bint.py:17-28 | B maps every rigid translation of both nodes to zero |
| Beam.Interpolation | functions/Mmat/Nint.py:27-30 | The shared 4 × 12 layout of N and B: row 2 carries the rotation coefficients negated |
| Beam.ApplyInterpolation | functions/Kmat/Bint.py:25-28 | The matrix–vector product with the layout equals the per-field interpolation of the nodal values |
| Beam.RigidResponse | functions/Mmat/Nint.py:27-30 | The layout applied to a rigid motion weights each field's translation and rotation by the sums of its coefficients |
| Beam.ReproducingCoefficients | functions/Mmat/Nint.py:27-30 | Coefficients that reproduce constants and the axis line interpolate any rigid motion exactly |
| Beam.RigidAtNodes | functions/Kmat/Bint.py:25-28 | The rigid-motion nodal vector moves each node as the rigid motion moves its position and rotates both by θ |
| Beam.Translation | functions/Mmat/Nint.py:27-30 | A translation is the rigid motion with zero rotation, for every L |
| ElementFrame.AxisX | functions/Kmat/Abeam.py:28-29 | xl is the unit vector (n2 − n1)/‖n2 − n1‖; it requires n1 ≠ n2 |
| ElementFrame.CandidateY | functions/Kmat/Abeam.py:33-36 | The vector y that gets normalised is never zero, in both branches |
| ElementFrame.CrossWithZNonzero | functions/Kmat/Abeam.py:33-36 | z × xl vanishes only for xl = (0, 0, ±1), which the allclose fallback catches |
| ElementFrame.FallbackAxes | functions/Kmat/Abeam.py:33-39 | When abs(xl) is allclose to z, yl is the global y axis; xl's x and y components are within atol of 0, and xl·yl = xl.y, so yl is orthogonal to xl only within allclose's tolerance |
| ElementFrame.VerticalAxes | functions/Kmat/Abeam.py:33-39 | An exactly vertical element, pointing up or down, takes the fallback and gets orthonormal axes |
| ElementFrame.GeneralAxes | functions/Kmat/Abeam.py:36-39 | Otherwise xl, yl and zl are orthonormal (so zl = xl × yl is orthogonal to both), yl has zero z component, and zl.z ≥ 0 |
| ElementFrame.HorizontalAxis | functions/Kmat/Abeam.py:36-39 | z × xl is nonzero, and its normalisation yl is a horizontal unit vector orthogonal to xl with (xl × yl).z ≥ 0 |
| ElementFrame.NormalizeUnit | functions/Kmat/Abeam.py:29-38 | Dividing a nonzero vector by its norm gives a unit vector in the same direction |
| ElementFrame.Rotation | functions/Kmat/Abeam.py:42 | c = stack(xl, yl, zl) is 3 × 3 |
| ElementFrame.BlockDiag | functions/Kmat/Abeam.py:43-46 | A is 12 × 12, with c in all four diagonal 3 × 3 blocks and zeros in every off-diagonal block |
| ElementFrame.TransformBlocks | functions/Kmat/Abeam.py:42-46 | A acts on each displacement and rotation block separately, taking it to its components along xl, yl and zl |
| ElementFrame.Abeam | functions/Kmat/Abeam.py:25-48 | Abeam returns a 12 × 12 A and the length L |
| ElementFrame.ElementLength | functions/Kmat/Abeam.py:47 | L > 0 and L² = ‖n2 − n1‖² |
| ElementFrame.TranslationToLocal | functions/Kmat/Abeam.py:42-46 | A takes a global translation of both nodes to the translation by its local components |
| ElementStiffness.Material | functions/Kmat/kbeam.py:39-42 | D is 4 × 4, diag(E·A, E·Iz, E·Iy, G·J) from Ge = [E, A, Iz, Iy, G, J] |
| ElementStiffness.StrainMatrices | functions/Kmat/kbeam.py:47-48 | One Bint per integration point, at that point |
| ElementStiffness.LocalStiffness | functions/Kmat/kbeam.py:45-49 | k_l, the sum over points of Bᵀ D B · w_i · L/2, is 12 × 12 |
| ElementStiffness.Stiffness | functions/Kmat/kbeam.py:51 | k = Aᵀ k_l A is 12 × 12 |
| ElementStiffness.KBeam | functions/Kmat/kbeam.py:29-52 | An error exactly when PolDeg > 9; otherwise the loop's result equals Stiffness for intpL's rule |
| ElementStiffness.StiffnessSymmetric | functions/Kmat/kbeam.py:45-51 | k is symmetric |
| ElementStiffness.StiffnessNonneg | functions/Kmat/kbeam.py:39-51 | With non-negative section properties and weights, k is positive semi-definite |
| ElementStiffness.MaterialNonneg | functions/Kmat/kbeam.py:39-42 | D is positive semi-definite when Ge ≥ 0 |
| ElementStiffness.LocalRigidKernel | functions/Kmat/kbeam.py:45-49 | k_l maps every local rigid motion to zero nodal forces |
| ElementStiffness.StiffnessTranslationKernel | functions/Kmat/kbeam.py:45-51 | k maps every global translation of both nodes to zero nodal forces |
| ElementMass.MassMaterial | functions/Mmat/mbeam.py:35-38 | D is 4 × 4, diag(A·ρ, A·ρ, A·ρ, ρ·J) from Ge = [A, rho, J] |
| ElementMass.ShapeMatrices | functions/Mmat/mbeam.py:40-41 | One Nint per integration point, at that point |
| ElementMass.LocalMass | functions/Mmat/mbeam.py:33-42 | m_l, the sum over points of Nᵀ D N · w_i · L/2, is 12 × 12 |
| ElementMass.Mass | functions/Mmat/mbeam.py:45 | m = Aᵀ m_l A is 12 × 12 |
| ElementMass.MBeam | functions/Mmat/mbeam.py:29-46 | An error exactly when PolDeg > 9; otherwise the loop's result equals Mass for intpL's rule |
| ElementMass.MassSymmetric | functions/Mmat/mbeam.py:33-45 | m is symmetric |
| ElementMass.MassNonneg | functions/Mmat/mbeam.py:35-45 | With A, ρ, J ≥ 0 and non-negative weights, m is positive semi-definite |
| ElementMass.MassMaterialNonneg | functions/Mmat/mbeam.py:35-38 | D is positive semi-definite when Ge ≥ 0 |
| ElementMass.ShapeTranslation | functions/Mmat/mbeam.py:41 | N maps a translation t of the element to (t, 0) at every point |
| ElementMass.MassMaterialTranslation | functions/Mmat/mbeam.py:35-38 | The quadratic form of D at a translation is A·ρ·‖t‖² |
| ElementMass.MassTranslation | functions/Mmat/mbeam.py:29-45 | The kinetic energy of a translation of the element is (L/2)·(Σ w)·A·ρ·‖t_local‖², which is linear in ρ |
| ElementIntegral.Term | functions/Kmat/kbeam.py:49 | One point's term Pᵀ D P · w · J is square, of size the column count |
| ElementIntegral.Accumulated | functions/Kmat/kbeam.py:45-49 | The accumulated matrix after n points is square |
| ElementIntegral.AccumulatedSymmetric | functions/Kmat/kbeam.py:45-49 | A symmetric D gives a symmetric accumulated matrix |
| ElementIntegral.TermQuadratic | functions/Mmat/mbeam.py:42 | The quadratic form of one term at x is J · w · (the form of D at P x) |
| ElementIntegral.AccumulatedEnergy | functions/Mmat/mbeam.py:40-42 | The quadratic form of the accumulated matrix is the accumulated sum of the terms' forms |
| ElementIntegral.QuadraticStep | functions/Kmat/kbeam.py:47-49 | Adding point n adds its term's quadratic form |
| ElementIntegral.AccumulatedNonneg | functions/Kmat/kbeam.py:45-49 | Non-negative weights and J, and a positive semi-definite D, give a non-negative quadratic form |
| ElementIntegral.AccumulatedKernel | functions/Kmat/kbeam.py:47-49 | A vector that every P maps to zero is in the kernel of the accumulated matrix |
| ElementIntegral.AccumulatedQuadratic | functions/Mmat/mbeam.py:40-42 | When P maps x to the same v at every point, the form at x is J · (Σ w) · (the form of D at v) |
| ElementIntegral.TransformedSymmetric | functions/Kmat/kbeam.py:51 | Aᵀ k_l A is symmetric when k_l is |
| ElementIntegral.TransformedNonneg | functions/Mmat/mbeam.py:45 | Aᵀ m_l A is positive semi-definite when m_l is |
| ElementIntegral.TransformedKernel | functions/Kmat/kbeam.py:51 | x is in the kernel of Aᵀ k_l A when every P maps A x to zero |
| ElementIntegral.TransformedQuadratic | functions/Mmat/mbeam.py:45 | The form of Aᵀ m_l A at x is J · (Σ w) · (the form of D at v) when every P maps A x to v |
| ElementIntegral.TransformedConstant | functions/Mmat/mbeam.py:45 | The same result, with the form of D at v already evaluated |
| Matrices.CongruenceSymmetric | functions/Kmat/kbeam.py:51 | Aᵀ K A is symmetric for a symmetric K |
| Matrices.CongruenceQuadratic | functions/Mmat/mbeam.py:45 | The quadratic form of Aᵀ K A at x is that of K at A x |
| Springs.KSpring | functions/Kmat/kspring.py:23-28 | A fresh (nno·ldof)² array; each entry is the stiffness of the last row whose index (node−1)·ldof + d − 1 names it on the diagonal, and 0 elsewhere |
| Springs.LastRowWins | functions/Kmat/kspring.py:28 | For repeated (node, d), only the last row's stiffness survives |
| Springs.UnnamedStaysZero | functions/Kmat/kspring.py:23-28 | A diagonal position that no row names stays 0 |
| Structure.DofIndexRange | functions/Kmat/kspring.py:27 | (node − 1)·ldof + d − 1 lies in [0, nno·ldof) when 1 ≤ node ≤ nno and 1 ≤ d ≤ ldof |
| Structure.ElementDofs | functions/Kmat/buildK.py:49-50 | de − 1 has 12 entries, 6(n − 1) + d − 1 for d = 1..6 of node 1, then of node 2, with the 6 hard-coded |
| Structure.ElementDofsValid | functions/Kmat/buildK.py:49-53 | For two different nodes the twelve indices are distinct, and they lie in [0, n) when 6·node ≤ n, so ldof = 6 is what makes them fit |
| Structure.AnyNonzeroValid | functions/Kmat/buildK.py:55 | np.any over rows that name existing nodes holds exactly when there is a row |
| Structure.IndexOf | functions/plot/plotmodeshapes.py:37 | The position of x in s when there is one, and none exactly when x does not occur |
| Structure.IndexOfDistinct | functions/plot/plotmodeshapes.py:37 | In a sequence without repetitions, s[i] is at position i |
| Assembly.DofLists | functions/Kmat/buildK.py:49-50 | One de − 1 list per element |
| Assembly.ScatterAdd | functions/Kmat/buildK.py:53 | g[ix_(de, de)] += k: every entry becomes its old value plus the element entry landing there (0 if none); nothing is overwritten |
| Assembly.AddElement | functions/Mmat/buildM.py:50-54 | The same for one row of C, with its de − 1 |
| Assembly.AssembledStep | functions/Kmat/buildK.py:36-53 | Adding element n to the first n assembles the first n + 1 |
| Assembly.ContributionAt | functions/Kmat/buildK.py:53 | Element entry (i, j) lands at (de[i], de[j]) |
| Assembly.ContributionOutside | functions/Kmat/buildK.py:53 | An entry outside the element's rows or columns receives nothing |
| Assembly.AssembledSymmetric | functions/Kmat/buildK.py:46-53 | Symmetric element matrices assemble to a symmetric matrix |
| Assembly.AssembledUntouched | functions/Kmat/buildK.py:33-53 | An entry that no element touches stays 0 |
| Assembly.AssemblyOrder | functions/Kmat/buildK.py:36-53 | Assembling two groups of elements in either order gives the same matrix |
| Assembly.AssembledSum | functions/Kmat/buildK.py:36-53 | The assembled entry is the sum over the elements of each one's contribution |
| Assembly.AssemblyPermutation | functions/Kmat/buildK.py:36-53 | Assembling the elements in any order (any permutation of their list) gives the same global matrix |
| GlobalStiffness.StiffnessProperties | functions/Kmat/buildK.py:39 | Ge is the six values [E, A, Iz, Iy, G, J] of the record |
| GlobalStiffness.ElementMatrix | functions/Kmat/buildK.py:38-46 | k of one row of C is kbeam at degree 3 of its two nodes and its record |
| GlobalStiffness.AssembleStiffness | functions/Kmat/buildK.py:33-53 | After the loop each entry of the fresh n × n array is the sum of the element contributions |
| GlobalStiffness.BuildK | functions/Kmat/buildK.py:33-58 | Kmat is (nno·ldof)²; each entry is the element sum, plus the spring matrix entry when the spring array has a nonzero |
| GlobalStiffness.KEntrySymmetric | functions/Kmat/buildK.py:46-57 | Kmat is symmetric |
| GlobalStiffness.KEntryUntouched | functions/Kmat/buildK.py:33-57 | An entry that no element block and no spring row touches is 0 |
| GlobalStiffness.KEntryElementOrder | functions/Kmat/buildK.py:36-57 | Reordering the first nne rows of C by any permutation keeps buildK's preconditions and leaves every entry of Kmat unchanged |
| GlobalMass.MassProperties | functions/Mmat/buildM.py:39 | Ge is the three values [A, rho, J] of the record |
| GlobalMass.ElementMatrix | functions/Mmat/buildM.py:37-47 | m of one row of C is mbeam at degree 6 of its two nodes and its record |
| GlobalMass.AssembleMass | functions/Mmat/buildM.py:32-54 | After the loop each entry of the fresh n × n array is the sum of the element contributions |
| GlobalMass.AddFooting | functions/Mmat/buildM.py:57-59 | The three statements for one node add 0.787 to its three translational diagonal entries and change nothing else |
| GlobalMass.FootingParts | functions/Mmat/buildM.py:57-71 | The four nodes' additions touch different entries and together make the footing term |
| GlobalMass.BuildM | functions/Mmat/buildM.py:4-73 | Mmat is (nno·ldof)²; each entry is the element sum plus the footing term; TP is not read; enough nodes for index 6·119 + 2 are needed |
| GlobalMass.MEntrySymmetric | functions/Mmat/buildM.py:35-71 | Mmat is symmetric |
| GlobalMass.MEntryElementOrder | functions/Mmat/buildM.py:35-54 | Reordering the first nne rows of C by any permutation keeps buildM's preconditions and leaves every entry of Mmat unchanged |
| GlobalMass.FootingTranslations | functions/Mmat/buildM.py:57-71 | The footing term is nonzero exactly on the diagonal at directions 1-3 of nodes 117-120 (0-based 116-119); rotations are untouched |
| FrequencyAnalysis.ConstrainedDofs | functions/Mmat/NFA.py:34 | du[i] = (node − 1)·ldof + d − 1 of bound row i; disp is never read |
| FrequencyAnalysis.FreeDofs | functions/Mmat/NFA.py:32-35 | df lies in [0, n) and increases strictly |
| FrequencyAnalysis.FreeDofsMembers | functions/Mmat/NFA.py:32-35 | p is in df exactly when 0 ≤ p < n and p is not in du |
| FrequencyAnalysis.FreeDofsDistinct | functions/Mmat/NFA.py:35 | df has no repeated index |
| FrequencyAnalysis.FreeDofsSetOnly | functions/Mmat/NFA.py:35 | Only the set of du matters, so duplicate bound rows collapse |
| FrequencyAnalysis.FreeDofsAll | functions/Mmat/NFA.py:35 | With no constrained index in range, df is 0, 1, …, n − 1 |
| FrequencyAnalysis.Restrict | functions/Mmat/NFA.py:38 | K[ix_(df, df)] is |df| square, with entry (i, j) = K[df[i], df[j]]: the same list on both axes |
| FrequencyAnalysis.Problem | functions/Mmat/NFA.py:30-42 | The two matrices handed to eigh are square and of the same size |
| FrequencyAnalysis.ProblemShortcut | functions/Mmat/NFA.py:30-42 | When no bound row names an index of the model, both branches hand eigh the unrestricted K and M |
| FrequencyAnalysis.Omega | functions/Mmat/NFA.py:45 | omega has D's length and order, and entry i is a real number exactly when D[i] ≥ 0 (NaN otherwise) |
| FrequencyAnalysis.OmegaSquares | functions/Mmat/NFA.py:45 | A real frequency is non-negative and squares to its eigenvalue |
| FrequencyAnalysis.MaxAbs | functions/Mmat/NFA.py:49 | max_disp is ≥ 0 and bounds every absolute entry of the column |
| FrequencyAnalysis.MaxAbsAttained | functions/Mmat/NFA.py:49 | Some entry of a non-empty column reaches max_disp |
| FrequencyAnalysis.MaxAbsZero | functions/Mmat/NFA.py:50 | max_disp = 0 exactly for an all-zero column |
| FrequencyAnalysis.Normalised | functions/Mmat/NFA.py:48-51 | U after the loop has U's shape |
| FrequencyAnalysis.NormalisedScales | functions/Mmat/NFA.py:51 | Each entry is its column's factor times the old entry, so ratios within a column are kept |
| FrequencyAnalysis.NormalisedPeak | functions/Mmat/NFA.py:48-51 | A nonzero column ends with max absolute entry 1, reached at +1 or −1 (not necessarily +1) |
| FrequencyAnalysis.NormalisedZeroColumn | functions/Mmat/NFA.py:50 | An all-zero column is unchanged |
| FrequencyAnalysis.NormalisedColumn | functions/Mmat/NFA.py:51 | Column j is scaled by its own factor only |
| FrequencyAnalysis.ScaledEigenpairs | functions/Mmat/NFA.py:48-51 | Scaling each eigenvector column keeps the columns eigenvectors for the same eigenvalues |
| FrequencyAnalysis.NormalisedEigenpairs | functions/Mmat/NFA.py:48-51 | The normalised modes are still eigenvectors for the same eigenvalues |
| FrequencyAnalysis.NFAEigenpairs | functions/Mmat/NFA.py:30-53 | Whatever eigh returns, NFA's modes are eigenvectors of the restricted problem for the returned eigenvalues |
| FrequencyAnalysis.ColumnMaxAbs | functions/Mmat/NFA.py:49 | The loop computes the column's max absolute value |
| FrequencyAnalysis.NormaliseColumns | functions/Mmat/NFA.py:48-51 | U in place becomes Normalised of its old contents |
| FrequencyAnalysis.NFA | functions/Mmat/NFA.py:30-53 | omega and U are, respectively, Omega of eigh's eigenvalues and the normalised eigenvectors of the restricted problem; U has one row per free index and is not expanded |
| ModeShapes.ModeColumn | functions/plot/plotmodeshapes.py:37 | U[:, mode] has U's row count and its entries |
| ModeShapes.Expanded | functions/plot/plotmodeshapes.py:29-37 | The re-expanded vector has length ldof·nno |
| ModeShapes.Gather | functions/plot/plotmodeshapes.py:37 | Restriction to df keeps v[df[k]] at position k |
| ModeShapes.ModeDofs | functions/plot/plotmodeshapes.py:32-34 | df lies in [0, n), built exactly as in NFA |
| ModeShapes.ExpandMode | functions/plot/plotmodeshapes.py:29-40 | The fresh U_mode is the column written back at df when bound has a nonzero, and the column itself otherwise |
| ModeShapes.GatherExpanded | functions/plot/plotmodeshapes.py:29-37 | Restricting the re-expanded column to df gives the column back |
| ModeShapes.ExpandedGather | functions/plot/plotmodeshapes.py:29-37 | A full vector that is zero off df is the re-expansion of its restriction |
| ModeShapes.ExpandedConstrained | functions/plot/plotmodeshapes.py:29-37 | U_mode is zero at every constrained index |
| ModeShapes.ExpandedFree | functions/plot/plotmodeshapes.py:34-37 | Free position df[k] holds column entry k |
| ModeShapes.Translations | functions/plot/plotmodeshapes.py:43-44 | reshape((nno, 6))[:, 0:3] has one translation per node |
| ModeShapes.TranslationIndex | functions/plot/plotmodeshapes.py:43-44 | The translation of node n in direction d ∈ {1, 2, 3} is full entry 6(n − 1) + d − 1 |
| ModeShapes.RotationsDropped | functions/plot/plotmodeshapes.py:44 | Changing a rotation entry leaves the translations unchanged |
| ModeShapes.DeformedNode | functions/plot/plotmodeshapes.py:46 | Each deformed node is its coordinates plus scale times its translation; at scale 0 it is undeformed |
| ModeShapes.ModeShape | functions/plot/plotmodeshapes.py:28-46 | The deformed coordinates are X + scale·(translations of the re-expanded mode column) |
| VibrationFrame.DetectMill | classes/VIBframe.py:47-51 | mill holds exactly when the last record, in insertion order, that has a type has 'Tower element 9'; then such a record exists |
| VibrationFrame.MillLastTypedDecides | classes/VIBframe.py:48-51 | An untyped record appended last leaves the flag unchanged; a typed record appended last decides it alone |
| VibrationFrame.VibFrame.constructor | classes/VIBframe.py:9-56 | The inputs are stored unchanged; ldof = 6, nno = rows of X, nne = rows of C, ndof = 6·nno; mill is detected; M, K, omega and U are what buildM, buildK and NFA give |
| VibrationFrame.VibFrame.Run | classes/VIBframe.py:53-56 | buildM, then buildK, then NFA on the K and M just stored; mill is unchanged |
| VibrationFrame.VibFrame.BuildMass | classes/VIBframe.py:60-61 | M becomes buildM's matrix; K, omega and U are unchanged |
| VibrationFrame.VibFrame.BuildStiffness | classes/VIBframe.py:64-65 | K becomes buildK's matrix, which does not depend on mill; M, omega and U are unchanged |
| VibrationFrame.VibFrame.Analyse | classes/VIBframe.py:68-69 | omega and U are what NFA returns for the stored K and M |
| Connectivity.Remaining | functions/indata/buildC.py:61-80 | setdiff1d holds positions below n that are not updated, in ascending order |
| Connectivity.RemainingMembers | functions/indata/buildC.py:61-80 | k is in the list exactly when 0 ≤ k < n and k is not updated |
| Connectivity.ShiftIndex | functions/indata/buildC.py:48-76 | idx[i] = idx[i + 1] for every i in update_idx, within idx's bounds |
| Connectivity.PinIndex | functions/indata/buildC.py:54-56 | idx[side1nodes_idx] = side1nodes_idx |
| Connectivity.RenumberIndex | functions/indata/buildC.py:64-86 | The r-th remaining position takes node nno + 1 + r |
| Connectivity.UpdateIndex | functions/indata/buildC.py:45-86 | idx for the next side, from the previous side's idx and last first node |
| Connectivity.IndexAtNext | functions/indata/buildC.py:45-86 | idx during side s is the update of idx during side s − 1 |
| Connectivity.WriteFirstLevel | functions/indata/buildC.py:89-91 | Five rows of level 1 are written at idx_nne, and nothing else changes |
| Connectivity.WriteLevel | functions/indata/buildC.py:93-106 | Five rows of level i + 1 are written at idx_nne, and nothing else changes |
| Connectivity.WriteLevels | functions/indata/buildC.py:88-106 | One side's 5·nn_levels rows are written consecutively from its start row, and nothing else changes |
| Connectivity.WriteSide | functions/indata/buildC.py:88-106 | The side's rows are exactly SideRows of its idx |
| Connectivity.SideConnectivity | functions/indata/buildC.py:29-106 | C has 20·nn_levels rows, each written exactly once, side by side |
| Connectivity.BuildC | functions/indata/buildC.py:3-140 | C and C_TP, the second as PileRows of nno_max |
| Connectivity.ConnectivityRows | functions/indata/buildC.py:30-106 | Every row of C is row t of exactly one side s, and its property number lies in 1..2·nn_levels |
| Connectivity.RowProperty | functions/indata/buildC.py:89-105 | Level 1 rows use ids 1 and nn_levels + 1; level i + 1 rows use i + 1 and i + 1 + nn_levels |
| Connectivity.FirstSideNodes | functions/indata/buildC.py:43 | Side 1's idx is 1 … 5 + 3(nn_levels − 1) |
| Connectivity.PileRowsShape | functions/indata/buildC.py:108-137 | C_TP has 12 rows with TP and 8 without, with the same first 8; bottom piles use id nn_levels + 1 and top piles 2·nn_levels; the pile ends are nno_max + 1..8; the transition braces run from nno_max + 5..8 to nno_max + 9 with id 2·nn_levels + 1 |
| Connectivity.NnoMaxCount | functions/indata/buildC.py:110-128 | nno_max is 4 + 8·nn_levels for one element per beam, plus 20·nn_levels for each further element |
| Subdivision.InnerNodes | functions/indata/indata.py:54-65 | X_i has nne_per_beam − 1 rows |
| Subdivision.SubElements | functions/indata/indata.py:55-77 | C_i has nne_per_beam rows |
| Subdivision.SubdividedX | functions/indata/indata.py:80-85 | X_full after n elements has nno + n·(nne_per_beam − 1) rows |
| Subdivision.SubdividedC | functions/indata/indata.py:80-85 | C_full after n elements has n·nne_per_beam rows |
| Subdivision.ElementNodes | functions/indata/indata.py:54-65 | The loop fills X_i with the interpolated nodes |
| Subdivision.ElementRows | functions/indata/indata.py:55-77 | The loop fills C_i, and idx grows by nne_per_beam − 1 |
| Subdivision.Subdivide | functions/indata/indata.py:49-85 | X_full and C_full after the loop over all elements |
| Subdivision.Indata | functions/indata/indata.py:38-92 | With nne_per_beam = 1, X and C are kept unchanged; otherwise they are subdivided; the mill rows are appended last exactly when X_mill is non-empty |
| Subdivision.InterpolatedEnds | functions/indata/indata.py:65 | The interpolation hits the start node at k = 0 and the end node at k = nne_per_beam |
| Subdivision.SubElementsChain | functions/indata/indata.py:68-77 | The first row starts at the start node and the last ends at the end node; consecutive rows share the new nodes first, first + 1, …; every row keeps the property number |
| Subdivision.SubdividedCRow | functions/indata/indata.py:80-85 | Row i·nne_per_beam + j of C_full is row j of element i |
| Subdivision.SubdividedXPrefix | functions/indata/indata.py:82 | X_full starts with X, so the original nodes keep their numbers |
| Subdivision.SubdividedXNew | functions/indata/indata.py:63-85 | The k-th new node of element i gets number nno + i(nne_per_beam − 1) + k, and its coordinates are start + (k/nne_per_beam)(end − start) |
| Subdivision.NodeOfElement | functions/indata/indata.py:63-85 | Where node m of the subdivided structure lies, for an original node and for a new node of element i |
| Subdivision.SubElementGeometry | functions/indata/indata.py:63-77 | Sub-element j of element i runs from fraction j/nne_per_beam to fraction (j + 1)/nne_per_beam of the element |
| SectionProperties.Sections | functions/indata/mprop.py:49-55 | Area, Iyz and J of each tube: A = π(r² − (r − t)²), Iyz = π/4·(r⁴ − (r − t)⁴), J = π/2·(r⁴ − (r − t)⁴), with r = D/2 |
| SectionProperties.BraceRecords | functions/indata/mprop.py:60-61 | The brace record of each level, in order |
| SectionProperties.LegRecords | functions/indata/mprop.py:62-63 | The leg record of each level, in order |
| SectionProperties.AddLevel | functions/indata/mprop.py:59-63 | One iteration assigns mprop[i + 1] and mprop[i + 1 + nn_levels] |
| SectionProperties.LevelStep | functions/indata/mprop.py:59-63 | Each iteration appends the brace and then the leg record of its level |
| SectionProperties.LevelTable | functions/indata/mprop.py:49-63 | The two loops give the table of all levels' records |
| SectionProperties.Mprop | functions/indata/mprop.py:44-67 | None exactly when a list's length differs from nn_levels; otherwise the level table plus, when TP is set, the transition piece record |
| SectionProperties.ShortLegListFails | functions/indata/mprop.py:44-51 | As written, 2 levels, 2 brace rows and 1 leg row pass the guard and end in an IndexError |
| SectionProperties.LongLegListAccepted | functions/indata/mprop.py:44-67 | As written, 1 level with 1 brace row and 2 leg rows returns a table |
| SectionProperties.MpropAsWritten | functions/indata/mprop.py:44-69 | The code as written: None exactly when both lengths differ from nn_levels; an IndexError exactly when one length matches and a list is shorter than nn_levels; otherwise the table of the first nn_levels rows of each list |
| SectionProperties.ExtraRowsIgnored | functions/indata/mprop.py:49-63 | The table depends only on the first nn_levels rows of each list |
| SectionProperties.AgreesWhenLengthsMatch | functions/indata/mprop.py:44-67 | When both lengths match, the code as written and the corrected guard agree |
| SectionProperties.TubeConstants | functions/indata/mprop.py:52-63 | Brace and leg records have Iy = Iz and J = 2·Iy |
| SectionProperties.LevelsItem | functions/indata/mprop.py:59-63 | Item 2k is key k + 1 with brace k + 1, and item 2k + 1 is key k + 1 + nn_levels with leg k + 1 |
| SectionProperties.LevelsDistinct | functions/indata/mprop.py:59-63 | No key occurs twice |
| SectionProperties.TableLookup | functions/indata/mprop.py:59-67 | The keys are exactly 1..2·nn_levels, plus 2·nn_levels + 1 iff TP. Key k ≤ nn_levels holds brace k's record, which has the fixed E = 195e9; key nn_levels + k holds leg k's, with E = 215e9; the transition key holds the one record built from the E argument |
| SectionProperties.SharedConstants | functions/indata/mprop.py:60-67 | Every record carries the ρ and G passed in |
| SectionProperties.TableLastType | functions/indata/mprop.py:60-67 | The last typed record is the transition piece, or else the top level's leg; so it is never the mill |
| Properties.Find | functions/indata/mprop.py:58-67 | The first position holding a key, and none exactly when the key is absent |
| Properties.Insert | functions/indata/mprop.py:60-67 | d[key] = m: the key now maps to m and other keys keep their values; a new key goes to the end, and an existing key keeps its place |
| Properties.ItemLookup | classes/VIBdata.py:50-57 | In a dict, looking up an item's key gives that item's value |
| Properties.LastType | classes/VIBframe.py:47-51 | None exactly when no record has a type |
| Properties.LastTypeAt | classes/VIBframe.py:47-51 | The last record that has a type decides LastType, whatever comes before it |
| Geometry.Meet | functions/indata/geometry.py:35-36 | The returned point satisfies y = m1·x + b1 and y = m2·x + b2 |
| Geometry.MeetUnique | functions/indata/geometry.py:35-36 | It is the only point on both lines |
| Geometry.Intersection | functions/indata/geometry.py:27-37 | The point is collinear with X1, X2 and with X3, X4; it requires X2[0] ≠ X1[0], X4[0] ≠ X3[0] and m1 ≠ m2 |
| Geometry.OnLineCollinear | functions/indata/geometry.py:27-31 | A point is on y = m1·x + b1 exactly when it is collinear with X1 and X2 |
| Geometry.LineThroughPoints | functions/indata/geometry.py:27-32 | Line 1 passes through X1 and X2 |
| Geometry.IntersectionOnBoth | functions/indata/geometry.py:27-36 | The point lies on both slope-intercept lines and is the only such point |
| Geometry.IntersectionSymmetric | functions/indata/geometry.py:27-37 | Swapping the two lines gives the same point |
| StoredRows.NodeRows | functions/data/baseinsert.py:6-7 | Row i has id i + 1 and node i's coordinates |
| StoredRows.ConnRows | functions/data/baseinsert.py:9-10 | Row i has id i + 1 and element i's node1, node2 and propno unchanged |
| StoredRows.MaterialRows | functions/data/baseinsert.py:12-14 | One row per item, in insertion order, keyed by propno |
| StoredRows.NodalRows | functions/data/baseinsert.py:16-20 | Bound and spring rows keep node, ldof and value, in input order |
| StoredRows.OmegaRows | functions/data/baseinsert.py:30-31 | Row i is (i + 1, omega[i]), a NaN frequency included |
| StoredRows.TripletsSound | functions/data/baseinsert.py:22-34 | Every triplet names a nonzero entry by its 1-based indices and carries its value; the triplets are in strict row-major order, so no entry appears twice |
| StoredRows.TripletsComplete | functions/data/baseinsert.py:22-34 | Every nonzero entry has its triplet |
| StoredRows.RowTripletsSound | functions/data/baseinsert.py:22-23 | The triplets of one row name its nonzero entries, with increasing columns |
| StoredRows.RowTripletsComplete | functions/data/baseinsert.py:22-23 | Each nonzero entry of a row has its triplet |
| StoredData.FetchNodes | classes/VIBdata.py:40-42 | One node per row |
| StoredData.FetchConnectivity | classes/VIBdata.py:44-46 | One element per row |
| StoredData.FetchNodal | classes/VIBdata.py:59-65 | One bound or spring row per row |
| StoredData.FetchOmega | classes/VIBdata.py:89-91 | One frequency (a real number or NaN) per row, the rows being in id order |
| StoredData.FetchSquare | classes/VIBdata.py:71-87 | A fresh s × s array, where s is the largest row or column index; entry (i − 1, j − 1) is the last value given to (i, j), and 0 when none is |
| StoredData.FetchRect | classes/VIBdata.py:93-101 | A fresh max_i × max_j array, sized separately on each axis, holding the last value of each entry |
| StoredData.MaxIndexBounds | classes/VIBdata.py:74-83 | size bounds every index and is the index of some triplet |
| StoredData.MaxIndexSplit | classes/VIBdata.py:74-97 | The square size is the larger of max_i and max_j |
| StoredData.LastEntryAt | classes/VIBdata.py:76-77 | Later duplicates overwrite earlier ones: the last triplet for (i, j) gives the entry |
| StoredData.MatrixLastEntry | classes/VIBdata.py:76-77 | Reading back baseinsert's triplets gives each nonzero entry and nothing else |
| StoredData.RoundTripRect | classes/VIBdata.py:96-101 | Decoding U's triplets recovers every entry; max_i = r exactly when the last row has a nonzero, and max_j = c exactly when the last column does; every dropped entry is 0 |
| StoredData.RoundTripSquare | classes/VIBdata.py:74-78 | Decoding M's or K's triplets recovers every entry; the size is n exactly when the last row or last column has a nonzero; otherwise the trailing zero rows and columns are dropped |
| StoredData.TripletsEmpty | classes/VIBdata.py:74 | No triplet is stored exactly when the matrix is zero, and then max has no value |
| StoredData.NodesRoundTrip | classes/VIBdata.py:40-42 | The stored node rows read back are X |
| StoredData.ConnectivityRoundTrip | classes/VIBdata.py:44-46 | The stored connectivity rows read back are C |
| StoredData.NodalRoundTrip | classes/VIBdata.py:59-65 | The stored bound and spring rows read back unchanged |
| StoredData.OmegaRoundTrip | classes/VIBdata.py:89-91 | The eigenvalue ids increase, and the rows read back are omega in order, NaN entries included |
| StoredData.FetchMaterialsLookup | classes/VIBdata.py:48-57 | Each propno maps to the record {E, A, rho, Iy, Iz, J, G, type} of its last row, and a propno with no row is missing |
| StoredData.MaterialsRoundTrip | classes/VIBdata.py:48-57 | A typed dict's material rows read back as that dict, in the same order |
| StoredData.StoredModel.constructor | classes/VIBdata.py:7-38 | Every field is the decoding of its table |

## Left out

- The eigensolver `linalg.eigh` is a LAPACK call; it is a parameter with the contract
  `IsEigensolver`. `subset_by_index` is passed through to it unread.
- `np.sqrt` and `np.linalg.norm` are parameters with the contracts `IsSqrt` and `IsNorm`.
- Floating point: everything is exact `real` arithmetic, and the decimal quadrature constants
  are taken as exact reals. No lemma claims that the weights add up to 2, since the 3- and
  5-point decimals do not.
- The NaN that `np.sqrt` gives for a negative eigenvalue is a `Frequency` case of its own.
  `.real` of a real square root is the root itself. The Eigenvalues rows hold a
  `Frequency` too: SQLite stores a NaN as NULL, and `np.array(..., dtype=float)` reads it
  back as nan.
- FrequencyAnalysis.FreeDofs: `list(set(dof) - set(du))` is taken in ascending order. That is
  the order CPython lists a set of small non-negative integers in; the language does not
  promise it.
- Errors that the source raises without handling them are preconditions, not results:
  - The property records named by C must exist (`Assembly.Processable`; a `KeyError`
    otherwise), and the node numbers in C must not exceed the number of nodes
    (`Assembly.Processable` and `Assembly.Fits`; an `IndexError` otherwise).
  - buildM needs 6·119 + 2 < nno·ldof (an `IndexError` otherwise).
  - The VIBdata decoders need non-empty tables (`max` of nothing raises `ValueError`).
  - indata needs nne_per_beam ≥ 1 (`np.zeros` with a negative dimension raises
    `ValueError`), and at least one element when nne_per_beam ≥ 2 (C_full is unbound
    otherwise, an `UnboundLocalError`).
  - buildC needs nn_levels ≥ 1 (with no levels idx has two entries, and `idx[4]` raises an
    `IndexError`).
- Inputs for which the source returns a silent inf or nan are excluded by preconditions:
  - Bint needs L ≠ 0, and Abeam needs n1 ≠ n2: numpy divides by a zero norm with only a
    RuntimeWarning.
  - intersection needs non-vertical, non-parallel lines: numpy divides by a zero run or a
    zero slope difference in the same way.
- Inputs for which the source silently reads the wrong entry are excluded by preconditions:
  - Node 0 in C is excluded by `Assembly.Processable` and `Assembly.Fits`: `X[C[i, 0] - 1]`
    would read the last node's coordinates, and `de - 1` would wrap to the last node's six
    indices, so the element would be assembled onto the wrong node.
  - The spring rows must name existing nodes and a direction in 1..ldof
    (`Structure.ValidRow`): node 0 would wrap to a negative index, and a direction outside
    1..ldof would write another index's diagonal entry (node 1 with direction 7 writes node
    2's first entry, and direction 0 writes the last entry).
  - The VIBdata decoders need 1-based indices; an index 0 would become −1, counted from the
    end.
- Other preconditions:
  - mprop needs 65 + nn_levels below the surrogate range, because a Dafny `char` cannot be
    a lone surrogate; Python's `chr` returns one there.
  - ModeShapes.ModeShape needs ldof = 6, so that the reshape to six entries per node fits.
- StoredData.FetchOmega: `ORDER BY id` is a precondition that the rows are already in id
  order; the database's sort is not modelled.
- The `isinstance(d, dict)` test of VIBframe holds for every record, because records are
  typed values here.
- `_fetch_var` takes the first var row (`fetchone`). The `var` row inserted by
  baseinsert (lines 3-4) is a plain tuple of five integers; it has no function of its own.
- SQLite I/O is not modelled: the cursor, `connect`, `execute` and `fetchall`. Rows are given
  as sequences.
- The sparse `lil_matrix` is a dense array, which has the same entries after `toarray`.
- Plotting is not modelled: plotmodeshapes.py lines 48-84, the drawing helpers and the
  connectivity plot.
- buildX, buildX2D and `geometry.phibrace` are not modelled: they rely on trigonometric
  rotations, float deduplication and `scipy.optimize.minimize_scalar`.
- The text output file and the example scripts are not part of this model.
- ElementMass.MassTranslation: m's linearity in ρ is stated only for the kinetic energy of a
  translation, not for the whole matrix.
- StrainInterpolation.Bint: that every entry is affine in s holds by the definitions of
  B1-B6; no separate lemma states it.
- ShapeFunction.Nint: that N3 and N6 scale with L while N1, N2, N4 and N5 do not depend on
  it holds by the definitions of N1-N6; no separate lemma states it.

## Findings

| source | as written | input that shows it | evidently intended | confidence | as-written member | corrected member |
|---|---|---|---|---|---|---|
| functions/indata/mprop.py:44 | The guard returns None only when BOTH list lengths differ from nn_levels, because it uses `and`. | nn_levels = 2, two brace rows and one leg row: the guard passes and `dim_leg[1, 0]` raises IndexError. With nn_levels = 1, one brace and two leg rows, a table is returned that silently ignores the extra row. | Return None when EITHER length differs (`or`), as the printed message says | not executed | SectionProperties.MpropAsWritten (shown by SectionProperties.ShortLegListFails and SectionProperties.LongLegListAccepted) | SectionProperties.Mprop |
