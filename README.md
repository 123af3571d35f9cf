# unitary_to_rot, modelled in Dafny

PennyLane's `unitary_to_rot` transform rewrites a quantum script (a "tape"). It walks the tape's operations in order. A `QubitUnitary` whose matrix has shape (2, 2) is replaced by the operations that the single-qubit decomposition returns for that matrix on the operation's first wire. A `QubitUnitary` whose matrix has shape (4, 4) is replaced by the operations that the two-qubit decomposition returns for that matrix on all of its wires. Every other operation is kept as it is. This includes a `QubitUnitary` of any other shape, such as a batch of matrices. The transform returns a batch holding one copy of the tape, with only the operation list replaced. It also returns a post-processing function that takes element 0 of the batch's results.

The project has three modules:

- `Wrappers` (`wrappers.dfy`): `Option` and `Result`, used for the error paths.
- `Circuit` (`circuit.dfy`): wires, complex tensors with their shape, operations, measurements and the `QuantumScript` tape.
- `UnitaryToRot` (`unitary_to_rot.dfy`): the transform and what is proved about it.
  - `ExpandAll` specifies the new operation list.
  - `Transform` is the loop that builds that list and the new tape. Its contract ties it to `ExpandAll`.
  - The lemmas state what `ExpandAll` keeps, replaces and preserves.
  - `NullPostprocessing` is the post-processing function.

The two decomposition routines are imported from elsewhere and do floating-point linear algebra. Here they are a `Decompositions` value: any pair of functions from (matrix, wire) and (matrix, wires) to a sequence of operations. Every property below therefore holds whatever the decompositions return.

Python's `op.wires[0]` raises `IndexError` on a 2x2 `QubitUnitary` with no wires. The model keeps that error path as `Failure(IndexError(position))` and does not rule such tapes out with a precondition. Within the model, where the decompositions cannot raise, this is the only way the transform fails.

## Model

| member | source | states |
|---|---|---|
| `UnitaryToRot.Expand` | pennylane/transforms/unitary_to_rot.py:140-152 | what one operation becomes: nothing can be built exactly when it is a (2, 2) `QubitUnitary` with no wires (`op.wires[0]` fails), and an operation that is not a (2, 2) or (4, 4) `QubitUnitary` becomes itself alone; `ExpansionAt` and `ExpandAllSingleton` state what the decomposed cases become |
| `UnitaryToRot.ExpandAll` | pennylane/transforms/unitary_to_rot.py:138-152 | the new operation list is the in-order concatenation of each operation's expansion; when it fails, the failure is at an index inside the tape, where a 2x2 `QubitUnitary` has no wires |
| `UnitaryToRot.Transform` | pennylane/transforms/unitary_to_rot.py:138-154 | the loop fails exactly when `ExpandAll` fails, with the same error; on success it returns a batch of exactly one tape whose operations are `ExpandAll` of the input's and whose measurements and shots are the input's |
| `UnitaryToRot.ExpansionAt` | pennylane/transforms/unitary_to_rot.py:139-152 | on success, the output is the expansion of the operations before position i, then what operation i becomes, then the expansion of the rest. A non-`QubitUnitary` or other-shaped `QubitUnitary` stays itself. A (2, 2) one becomes exactly `oneQubit(matrix, wires[0])`, and its wire list is non-empty. A (4, 4) one becomes exactly `twoQubit(matrix, wires)`, with the full wire list |
| `UnitaryToRot.SplitAt` | pennylane/transforms/unitary_to_rot.py:138-152 | on success, the output is the expansion of the operations before position i, then the expansion of operation i, then the expansion of the operations after it |
| `UnitaryToRot.ExpandAllSingleton` | pennylane/transforms/unitary_to_rot.py:139-152 | a one-operation tape expands to that operation's own expansion, or fails at index 0 |
| `UnitaryToRot.ExpandAllAppend` | pennylane/transforms/unitary_to_rot.py:138-152 | order is preserved: expanding `a + b` gives the expansion of `a` followed by the expansion of `b`. An error in `a` wins. An error in `b` is reported at its index shifted by `|a|` |
| `UnitaryToRot.ExpandAllPrefix` | pennylane/transforms/unitary_to_rot.py:138-152 | on success, expanding any prefix of the tape succeeds and gives a prefix of the new operation list |
| `UnitaryToRot.ExpandAllFailsAtFirstMissingWire` | pennylane/transforms/unitary_to_rot.py:142-144 | within the model (decompositions that cannot raise), the transform fails if and only if some (2, 2) `QubitUnitary` has no wires. It fails at the first such operation |
| `UnitaryToRot.ExpandAllLength` | pennylane/transforms/unitary_to_rot.py:138-152 | on success, the output's length is the number of kept operations plus the total length of all decompositions |
| `UnitaryToRot.IdentityWithoutDecomposable` | pennylane/transforms/unitary_to_rot.py:139-152 | a tape with no (2, 2) or (4, 4) `QubitUnitary` keeps its operation list unchanged |
| `UnitaryToRot.NullPostprocessing` | pennylane/transforms/unitary_to_rot.py:156-160 | the post-processing returns element 0 of the results; an empty result list has none (`IndexError`) |
| `UnitaryToRot.PostprocessingUnwrapsBatch` | pennylane/transforms/unitary_to_rot.py:154-162 | executing the one-tape batch the transform returns on success and post-processing the results gives that transformed tape's own result |

## Left out

- The bodies of `one_qubit_decomposition` and `two_qubit_decomposition` are not part of this model. They do floating-point linear algebra in another file. Here they are arbitrary functions passed in as parameters, so nothing is proved about the gates they produce.
- ExpandAllFailsAtFirstMissingWire: "only if" holds only within the model. `Decompositions` holds total functions, so exceptions raised inside `one_qubit_decomposition` or `two_qubit_decomposition` are not modelled. A (4, 4) `QubitUnitary` with no wires, for example, succeeds here.
- The `QubitUnitary` constructor's check that the matrix size matches the number of wires is not part of this model. With that check, a (2, 2) `QubitUnitary` always has one wire, and the `IndexError` path cannot arise in the real program.
- Transform: returns only the batch. The post-processing function in the source's returned pair is always the same, and is modelled separately as `NullPostprocessing`.
- `QueuingManager.stop_recording()` (lines 143 and 147) is left out. It only switches off a global recording context and does not affect the returned list.
- The `@transform` decorator machinery is left out. So is its application to QNodes and quantum functions, and the differentiability caveats in the docstring.
- `QuantumScript.copy` is not part of this model. The copy is modelled as the tape with its `operations` replaced and its measurements and shots kept. The copy also recomputes trainable-parameter indices, and those are not modelled.
- `isinstance(op, qml.QubitUnitary)` also matches subclasses of `QubitUnitary`. The model has a single `QubitUnitary` constructor, and any such subclass counts as one.
- Matrix entries are exact complex numbers over `real`. Floating point is not modelled, and the transform only reads the matrix's shape.
- In Python, an `IndexError` from `op.wires[0]` or `results[0]` is an exception. Here it is a `Failure` or `None` value.
- The test files for the purity measurement and the `default.tensor` device, and the random mixed-state fixture, are not modelled. They test code that is not part of this model, through floating point, randomness and external simulators.
