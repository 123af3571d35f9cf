/**
 * The `unitary_to_rot` transform: every `QubitUnitary` whose matrix is 2x2 is
 * replaced by its single-qubit decomposition, every one whose matrix is 4x4 by
 * its two-qubit decomposition, and every other operation is kept; the result
 * is a batch of one tape that differs from the input only in its operations,
 * together with a post-processing function that unwraps that batch.
 */
module UnitaryToRot {
  import opened Wrappers
  import opened Circuit

  /**
   * The two decomposition routines the transform calls.  Their numerics are
   * not part of this model, so they are parameters: any pair of functions
   * from (matrix, wire) and (matrix, wires) to a sequence of operations.
   */
  datatype Decompositions = Decompositions(
    oneQubit: (Tensor, Wire) -> seq<Operation>,
    twoQubit: (Tensor, seq<Wire>) -> seq<Operation>)

  /**
   * The transform fails only where a 2x2 `QubitUnitary` has no wire to pass
   * as `op.wires[0]`; `position` is the index of that operation in the tape.
   */
  datatype TransformError = IndexError(position: nat)

  predicate IsTwoByTwo(m: Tensor) { m.shape == [2, 2] }

  predicate IsFourByFour(m: Tensor) { m.shape == [4, 4] }

  /** The operation is one the transform replaces by a decomposition. */
  predicate IsDecomposed(op: Operation)
  {
    op.QubitUnitary? && (IsTwoByTwo(op.matrix) || IsFourByFour(op.matrix))
  }

  /** The operation makes `op.wires[0]` fail: a 2x2 unitary with no wires. */
  predicate LacksFirstWire(op: Operation)
  {
    op.QubitUnitary? && IsTwoByTwo(op.matrix) && |op.wires| == 0
  }

  /**
   * What one operation contributes to the new operation list: nothing can be
   * built exactly when `op.wires[0]` is out of range, and an operation that is
   * not decomposed contributes itself alone.
   */
  function Expand(op: Operation, d: Decompositions): (r: Option<seq<Operation>>)
    ensures r.None? <==> LacksFirstWire(op)
    ensures !IsDecomposed(op) ==> r == Some([op])
  {
    match op
    case QubitUnitary(m, wires) =>
      if IsTwoByTwo(m) then
        if |wires| == 0 then None else Some(d.oneQubit(m, wires[0]))
      else if IsFourByFour(m) then Some(d.twoQubit(m, wires))
      else Some([op])
    case Gate(_, _, _) => Some([op])
  }

  /**
   * The operation list the transform builds from `ops`: the in-order
   * concatenation of every operation's expansion, or the error raised at the
   * first operation that cannot be expanded.
   */
  function ExpandAll(ops: seq<Operation>, d: Decompositions): (r: Result<seq<Operation>, TransformError>)
    ensures r.Failure? ==> r.error.position < |ops| && LacksFirstWire(ops[r.error.position])
    decreases |ops|
  {
    if |ops| == 0 then Success([])
    else
      match ExpandAll(ops[..|ops| - 1], d)
      case Failure(e) => Failure(e)
      case Success(done) =>
        match Expand(ops[|ops| - 1], d)
        case None => Failure(IndexError(|ops| - 1))
        case Some(piece) => Success(done + piece)
  }

  /** The list of a single operation expands to that operation's expansion. */
  lemma ExpandAllSingleton(op: Operation, d: Decompositions)
    ensures ExpandAll([op], d) ==
      match Expand(op, d)
      case None => Failure(IndexError(0))
      case Some(piece) => Success(piece)
  {
    assert [op][..0] == [];
    if Expand(op, d).Some? {
      assert [] + Expand(op, d).value == Expand(op, d).value;
    }
  }

  /**
   * Expanding a concatenation expands each part and concatenates the results
   * in order; an error in the second part is reported at its position in the
   * whole list.
   */
  lemma {:induction false} ExpandAllAppend(a: seq<Operation>, b: seq<Operation>, d: Decompositions)
    ensures ExpandAll(a + b, d) ==
      if ExpandAll(a, d).Failure? then ExpandAll(a, d)
      else if ExpandAll(b, d).Failure? then Failure(IndexError(|a| + ExpandAll(b, d).error.position))
      else Success(ExpandAll(a, d).value + ExpandAll(b, d).value)
    decreases |b|
  {
    if |b| == 0 {
      assert a + b == a;
      if ExpandAll(a, d).Success? {
        assert ExpandAll(a, d).value + [] == ExpandAll(a, d).value;
      }
    } else {
      var front := b[..|b| - 1];
      assert (a + b)[..|a + b| - 1] == a + front;
      assert (a + b)[|a + b| - 1] == b[|b| - 1];
      ExpandAllAppend(a, front, d);
      if ExpandAll(a, d).Success? && ExpandAll(front, d).Success? && Expand(b[|b| - 1], d).Some? {
        var x, y, z := ExpandAll(a, d).value, ExpandAll(front, d).value, Expand(b[|b| - 1], d).value;
        assert (x + y) + z == x + (y + z);
      }
    }
  }

  /**
   * Where the transform succeeds, the new list is the expansion of the
   * operations before position `i`, then what operation `i` is replaced by,
   * then the expansion of the operations after it: an operation that is not
   * a 2x2 or 4x4 `QubitUnitary` is kept as it is, a 2x2 one is replaced by
   * the single-qubit decomposition of its matrix on its first wire, a 4x4
   * one by the two-qubit decomposition of its matrix on all its wires.
   */
  lemma ExpansionAt(ops: seq<Operation>, d: Decompositions, i: nat)
    requires ExpandAll(ops, d).Success?
    requires i < |ops|
    ensures ExpandAll(ops[..i], d).Success? && ExpandAll(ops[i + 1..], d).Success?
    ensures !IsDecomposed(ops[i]) ==>
      ExpandAll(ops, d).value == ExpandAll(ops[..i], d).value + [ops[i]] + ExpandAll(ops[i + 1..], d).value
    ensures ops[i].QubitUnitary? && IsTwoByTwo(ops[i].matrix) ==>
      |ops[i].wires| > 0 &&
      ExpandAll(ops, d).value ==
        ExpandAll(ops[..i], d).value + d.oneQubit(ops[i].matrix, ops[i].wires[0]) + ExpandAll(ops[i + 1..], d).value
    ensures ops[i].QubitUnitary? && IsFourByFour(ops[i].matrix) ==>
      ExpandAll(ops, d).value ==
        ExpandAll(ops[..i], d).value + d.twoQubit(ops[i].matrix, ops[i].wires) + ExpandAll(ops[i + 1..], d).value
  {
    SplitAt(ops, d, i);
  }

  /** On success, the output splits around the expansion of operation `i`. */
  lemma SplitAt(ops: seq<Operation>, d: Decompositions, i: nat)
    requires ExpandAll(ops, d).Success?
    requires i < |ops|
    ensures ExpandAll(ops[..i], d).Success? && Expand(ops[i], d).Some? && ExpandAll(ops[i + 1..], d).Success?
    ensures ExpandAll(ops, d).value ==
      ExpandAll(ops[..i], d).value + Expand(ops[i], d).value + ExpandAll(ops[i + 1..], d).value
  {
    var before, op, after := ops[..i], ops[i], ops[i + 1..];
    assert ops == before + ([op] + after);
    ExpandAllAppend(before, [op] + after, d);
    ExpandAllAppend([op], after, d);
    ExpandAllSingleton(op, d);
    var x, y, z := ExpandAll(before, d).value, Expand(op, d).value, ExpandAll(after, d).value;
    assert x + (y + z) == x + y + z;
  }

  /** The expansion of a prefix is a prefix of the expansion. */
  lemma ExpandAllPrefix(ops: seq<Operation>, d: Decompositions, k: nat)
    requires ExpandAll(ops, d).Success?
    requires k <= |ops|
    ensures ExpandAll(ops[..k], d).Success?
    ensures ExpandAll(ops[..k], d).value <= ExpandAll(ops, d).value
  {
    assert ops == ops[..k] + ops[k..];
    ExpandAllAppend(ops[..k], ops[k..], d);
  }

  /**
   * Within the model, where the decompositions never raise, the transform
   * fails exactly when some 2x2 `QubitUnitary` has no wires, and then it fails
   * at the first such operation.
   */
  lemma {:induction false} ExpandAllFailsAtFirstMissingWire(ops: seq<Operation>, d: Decompositions)
    ensures ExpandAll(ops, d).Failure? <==> exists i :: 0 <= i < |ops| && LacksFirstWire(ops[i])
    ensures ExpandAll(ops, d).Failure? ==>
      forall j :: 0 <= j < ExpandAll(ops, d).error.position ==> !LacksFirstWire(ops[j])
    decreases |ops|
  {
    if |ops| > 0 {
      var front := ops[..|ops| - 1];
      ExpandAllFailsAtFirstMissingWire(front, d);
      assert forall j :: 0 <= j < |front| ==> front[j] == ops[j];
      if ExpandAll(front, d).Failure? {
        var k := ExpandAll(front, d).error.position;
        assert LacksFirstWire(ops[k]);
      }
    }
  }

  /** Number of operations the transform decomposes. */
  function CountDecomposed(ops: seq<Operation>): nat
  {
    if |ops| == 0 then 0
    else CountDecomposed(ops[..|ops| - 1]) + (if IsDecomposed(ops[|ops| - 1]) then 1 else 0)
  }

  /** Total length of the decompositions the transform splices in. */
  function DecomposedLength(ops: seq<Operation>, d: Decompositions): nat
    requires forall i :: 0 <= i < |ops| ==> !LacksFirstWire(ops[i])
  {
    if |ops| == 0 then 0
    else
      var op := ops[|ops| - 1];
      assert !LacksFirstWire(op);
      DecomposedLength(ops[..|ops| - 1], d) +
        if op.QubitUnitary? && IsTwoByTwo(op.matrix) then |d.oneQubit(op.matrix, op.wires[0])|
        else if op.QubitUnitary? && IsFourByFour(op.matrix) then |d.twoQubit(op.matrix, op.wires)|
        else 0
  }

  /**
   * The new list holds every kept operation once and every decomposition in
   * full: its length is the number of kept operations plus the lengths of
   * all decompositions.
   */
  lemma {:induction false} ExpandAllLength(ops: seq<Operation>, d: Decompositions)
    requires ExpandAll(ops, d).Success?
    ensures forall i :: 0 <= i < |ops| ==> !LacksFirstWire(ops[i])
    ensures |ExpandAll(ops, d).value| == (|ops| - CountDecomposed(ops)) + DecomposedLength(ops, d)
    decreases |ops|
  {
    ExpandAllFailsAtFirstMissingWire(ops, d);
    if |ops| > 0 {
      var front := ops[..|ops| - 1];
      assert forall j :: 0 <= j < |front| ==> front[j] == ops[j];
      ExpandAllLength(front, d);
      assert CountDecomposed(front) <= |front| by { CountDecomposedBound(front); }
    }
  }

  lemma {:induction false} CountDecomposedBound(ops: seq<Operation>)
    ensures CountDecomposed(ops) <= |ops|
    decreases |ops|
  {
    if |ops| > 0 {
      CountDecomposedBound(ops[..|ops| - 1]);
    }
  }

  /**
   * On a tape with no 2x2 or 4x4 `QubitUnitary`, the transform returns the
   * operation list unchanged.
   */
  lemma {:induction false} IdentityWithoutDecomposable(ops: seq<Operation>, d: Decompositions)
    requires forall i :: 0 <= i < |ops| ==> !IsDecomposed(ops[i])
    ensures ExpandAll(ops, d) == Success(ops)
    decreases |ops|
  {
    if |ops| > 0 {
      var front := ops[..|ops| - 1];
      assert forall j :: 0 <= j < |front| ==> front[j] == ops[j];
      IdentityWithoutDecomposable(front, d);
      assert front + [ops[|ops| - 1]] == ops;
    }
  }

  /**
   * The transform itself: walks the tape's operations in order, building the
   * new operation list, and returns a batch holding one copy of the tape with
   * only its operations replaced.  The post-processing function returned with
   * the batch is always `NullPostprocessing`; it does not depend on the tape,
   * so it is not an out-parameter here.
   */
  method Transform(tape: QuantumScript, d: Decompositions)
    returns (result: Result<seq<QuantumScript>, TransformError>)
    ensures result.Success? <==> ExpandAll(tape.operations, d).Success?
    ensures result.Failure? ==> result.error == ExpandAll(tape.operations, d).error
    ensures result.Success? ==>
      |result.value| == 1 &&
      result.value[0].operations == ExpandAll(tape.operations, d).value &&
      result.value[0].measurements == tape.measurements &&
      result.value[0].shots == tape.shots
  {
    var operations: seq<Operation> := [];
    var i := 0;
    while i < |tape.operations|
      invariant 0 <= i <= |tape.operations|
      invariant ExpandAll(tape.operations[..i], d) == Success(operations)
    {
      var op := tape.operations[i];
      assert tape.operations[..i + 1][..i] == tape.operations[..i];
      if op.QubitUnitary? {
        if IsTwoByTwo(op.matrix) {
          if |op.wires| == 0 {
            ExpandAllAppend(tape.operations[..i + 1], tape.operations[i + 1..], d);
            assert tape.operations[..i + 1] + tape.operations[i + 1..] == tape.operations;
            return Failure(IndexError(i));
          }
          operations := operations + d.oneQubit(op.matrix, op.wires[0]);
        } else if IsFourByFour(op.matrix) {
          operations := operations + d.twoQubit(op.matrix, op.wires);
        } else {
          operations := operations + [op];
        }
      } else {
        operations := operations + [op];
      }
      i := i + 1;
    }
    assert tape.operations[..i] == tape.operations;
    result := Success([tape.(operations := operations)]);
  }

  /**
   * The post-processing function returned with the batch: the result for the
   * one tape is element 0 of the batch's results; an empty list of results has
   * no element 0.
   */
  function NullPostprocessing<R>(results: seq<R>): (r: Option<R>)
    ensures r.Some? <==> |results| >= 1
    ensures r.Some? ==> r.value == results[0]
  {
    if |results| == 0 then None else Some(results[0])
  }

  /**
   * Executing the batch `Transform` returns on success (the one tape whose
   * operations are `ExpandAll` of the input's) and post-processing the results
   * gives the result of executing that transformed tape.
   */
  lemma PostprocessingUnwrapsBatch<R>(tape: QuantumScript, d: Decompositions, execute: QuantumScript -> R)
    requires ExpandAll(tape.operations, d).Success?
    ensures var batch := [tape.(operations := ExpandAll(tape.operations, d).value)];
      NullPostprocessing(seq(|batch|, k requires 0 <= k < |batch| => execute(batch[k]))) == Some(execute(batch[0]))
  {
  }
}
