/**
 * Validity predicates (`glsl::valid`): which component types may form
 * scalars, vectors, matrices, arrays and sampler outputs.
 */
module Valid {
  import opened Glsl

  /** `VecDim`: implemented for `Const<2>`, `Const<3>` and `Const<4>`. */
  predicate VecDim(n: nat)
  {
    n == 2 || n == 3 || n == 4
  }

  /** `ForScalar`: every scalar type. */
  predicate ForScalar(s: Scalar)
  {
    IsScalarType(s)
  }

  /**
   * The types with an impl of `Location<Vector<DIM>>` for every DIM:
   * `f32`, `f64`, `i32` and `u32` (glsl::location).
   */
  predicate HasVectorLocationImpl(s: Scalar)
  {
    s == F32 || s == F64 || s == I32 || s == U32
  }

  /** `ForVector<DIM>`: scalar-valid with a vector location impl, at a legal DIM. */
  predicate ForVector(s: Scalar, dim: nat)
  {
    ForScalar(s) && HasVectorLocationImpl(s) && VecDim(dim)
  }

  /** `ForMatrix<ROW, COL>`: implemented for `f32` and `f64` only. */
  predicate ForMatrix(s: Scalar, row: nat, col: nat)
  {
    (s == F32 || s == F64) && VecDim(row) && VecDim(col)
  }

  /** `ForArray`: any GLSL type. */
  predicate ForArray(t: GlslType)
  {
    IsType(t)
  }

  /** `ForSampler`: `f32`, `i32` and `u32`. */
  predicate ForSampler(s: Scalar)
  {
    s == F32 || s == I32 || s == U32
  }

  // ---------------------------------------------------------------------
  // Properties

  /** `valid::VecDim` and `marker::VecSize` accept the same dimensions. */
  lemma VecDimIsVecSize(n: nat)
    ensures VecDim(n) <==> VecSize(n)
    ensures VecDim(n) <==> 2 <= n <= 4
  {
  }

  /** Every scalar-valid type is vector-valid at exactly the legal dimensions. */
  lemma ForVectorExactly(s: Scalar, dim: nat)
    ensures ForVector(s, dim) <==> ForScalar(s) && VecDim(dim)
    ensures ForScalar(s) <==> s != Bool
  {
  }

  /**
   * A matrix component is also a vector component at the column count and
   * a valid `Type` as a vector; `i32` and `u32` are never matrix
   * components.
   */
  lemma ForMatrixComponents(s: Scalar, row: nat, col: nat)
    ensures ForMatrix(s, row, col) ==> ForVector(s, col) && IsType(VecT(s, col)) && IsType(MatT(s, row, col))
    ensures ForMatrix(s, row, col) <==> IsType(MatT(s, row, col))
    ensures !ForMatrix(I32, row, col) && !ForMatrix(U32, row, col)
  {
  }

  /** Sampler outputs are scalars, and never `f64`. */
  lemma ForSamplerScalar(s: Scalar)
    ensures ForSampler(s) ==> ForScalar(s)
    ensures ForSampler(s) <==> ForScalar(s) && s != F64
  {
  }
}
