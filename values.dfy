/** The values a stack cell holds and the code addresses the interpreter works with. */
module Values {
  import opened Util
  import opened Wrappers

  /** A 64-bit float, kept as its bit pattern (read as an unsigned number). */
  datatype Float = Float(bits: uint64)

  /** The five arithmetic operations, shared by the integer and the float instructions. */
  datatype ArithOp = Add | Sub | Mul | Div | Rem

  /**
   * IEEE-754 arithmetic on `f64`. The model takes it as a parameter and makes
   * no assumption about it.
   */
  type FloatUnit = (ArithOp, Float, Float) -> Float

  /**
   * A code address: byte `offset` of the code of procedure number `proc`.
   * It stands for the raw `*const u8` the interpreter uses as program counter
   * and as return address.
   */
  datatype Addr = Addr(proc: nat, offset: nat)

  /**
   * The 8-byte untagged union `Value` (`s64`, `f64` or a procedure pointer),
   * with the variant it was last written as made explicit. A procedure
   * pointer is the index of that procedure in the procedure table.
   */
  datatype Value = S64(i: int64) | F64(f: Float) | ProcRef(proc: nat)

  /**
   * Reading the `s64` field. A float's bits are reinterpreted as a two's
   * complement integer; the integer image of a pointer is an address the
   * model does not track, so that read gives `None`.
   */
  function AsS64(v: Value): (r: Option<int64>)
    ensures v.S64? ==> r == Some(v.i)
    ensures r.None? <==> v.ProcRef?
  {
    match v
    case S64(i) => Some(i)
    case F64(f) => Some(Interpret(I64, f.bits))
    case ProcRef(_) => None
  }

  /** Reading the `f64` field: an integer's two's complement bits are reinterpreted as a float. */
  function AsF64(v: Value): (r: Option<Float>)
    ensures v.F64? ==> r == Some(v.f)
    ensures r.None? <==> v.ProcRef?
  {
    match v
    case S64(i) => Some(Float(Image(I64, i)))
    case F64(f) => Some(f)
    case ProcRef(_) => None
  }

  /** Reading the `proc` field in order to follow it: only a stored procedure pointer can be followed. */
  function AsProc(v: Value): (r: Option<nat>)
    ensures r.Some? <==> v.ProcRef?
    ensures r.Some? ==> r.value == v.proc
  {
    match v
    case ProcRef(p) => Some(p)
    case _ => None
  }

  /**
   * The union reinterprets bits without loss: an integer read back through
   * the float view, and a float read back through the integer view, are unchanged.
   */
  lemma ReinterpretRoundTrip(i: int64, f: Float)
    ensures AsS64(F64(AsF64(S64(i)).value)) == Some(i)
    ensures AsF64(S64(AsS64(F64(f)).value)) == Some(f)
  {
    var u := Image(I64, i);
    var m := I64.Modulus();
    var j := Interpret(I64, u);
    assert j == i by {
      assert (u - i) % m == 0 && (u - j) % m == 0;
      assert (j - i) % m == 0 by {
        assert j - i == (u - i) - (u - j);
      }
      assert -m < j - i < m;
    }
    var x := Interpret(I64, f.bits);
    var b := Image(I64, x);
    assert b == f.bits by {
      assert (b - x) % m == 0 && (f.bits - x) % m == 0;
      assert (b - f.bits) % m == 0 by {
        assert b - f.bits == (b - x) - (f.bits - x);
      }
      assert -m < b - f.bits < m;
    }
  }
}
