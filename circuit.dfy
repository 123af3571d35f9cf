/**
 * The parts of a quantum circuit ("tape") that the unitary_to_rot transform
 * reads or rebuilds: wires, numeric tensors, operations, measurements and the
 * tape that holds them.  Only the structure the transform inspects is modelled;
 * numeric contents are carried along untouched.
 */
module Circuit {

  /** A wire label: PennyLane accepts integers and strings alike. */
  datatype Wire = Index(n: int) | Label(name: string)

  /** A complex number, with exact reals standing in for floating point. */
  datatype Complex = Complex(re: real, im: real)

  /**
   * An array-valued operation parameter: its shape (as `qml.math.shape`
   * reports it) and its entries in row-major order.  A batch of matrices has a
   * shape of length three, so it is neither (2, 2) nor (4, 4).
   */
  datatype Tensor = Tensor(shape: seq<nat>, entries: seq<Complex>)

  /**
   * An operation of a tape.  `QubitUnitary` is the one kind the transform
   * looks into; its first (and only) parameter is its matrix.  Every other
   * operation is `Gate`, identified by its name, parameters and wires.
   */
  datatype Operation =
    | QubitUnitary(matrix: Tensor, wires: seq<Wire>)
    | Gate(name: string, parameters: seq<Tensor>, wires: seq<Wire>)

  /** A measurement request; the transform never looks into it. */
  datatype Measurement = Measurement(kind: string, observable: string, wires: seq<Wire>)

  /**
   * A quantum script: its operations in order, its measurements in order, and
   * its shot configuration (an empty shot vector is analytic execution).
   */
  datatype QuantumScript = QuantumScript(
    operations: seq<Operation>,
    measurements: seq<Measurement>,
    shots: seq<nat>)
}
