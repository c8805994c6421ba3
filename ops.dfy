/**
  The vector arithmetic layer (src/ops.cpp, lines 11-112).

  A column is its logical sequence of values; how it is split into chunks
  does not enter here (see module Chunks). An absent column stands for a
  null column pointer. Every wrapper first checks its column operands for
  null and returns null without calling the kernel; otherwise it calls one
  elementwise kernel and returns null when that kernel reports an error
  (for two columns: unequal lengths).
 */
module Ops {

  datatype Option<+T> = None | Some(value: T)

  type Column = seq<real>

  function Abs(x: real): (r: real)
    ensures r >= 0.0
    ensures r == x || r == -x
  {
    if x < 0.0 then -x else x
  }

  /** x raised to a natural exponent */
  function Pow(x: real, e: nat): real
  {
    if e == 0 then 1.0 else x * Pow(x, e - 1)
  }

  /** True when both operands are present and the elementwise kernel accepts them */
  predicate Compatible(a: Option<Column>, b: Option<Column>)
  {
    a.Some? && b.Some? && |a.value| == |b.value|
  }

  /** Elementwise a + b */
  function VecAdd(a: Option<Column>, b: Option<Column>): (r: Option<Column>)
    ensures r.Some? <==> Compatible(a, b)
    ensures r.Some? ==> |r.value| == |a.value|
    ensures r.Some? ==> forall i :: 0 <= i < |r.value| ==> r.value[i] == a.value[i] + b.value[i]
  {
    if a.None? || b.None? then None
    else if |a.value| != |b.value| then None
    else Some(seq(|a.value|, i requires 0 <= i < |a.value| => a.value[i] + b.value[i]))
  }

  /** Elementwise a - b */
  function VecSub(a: Option<Column>, b: Option<Column>): (r: Option<Column>)
    ensures r.Some? <==> Compatible(a, b)
    ensures r.Some? ==> |r.value| == |a.value|
    ensures r.Some? ==> forall i :: 0 <= i < |r.value| ==> r.value[i] == a.value[i] - b.value[i]
  {
    if a.None? || b.None? then None
    else if |a.value| != |b.value| then None
    else Some(seq(|a.value|, i requires 0 <= i < |a.value| => a.value[i] - b.value[i]))
  }

  /** True when no element of the column is zero */
  predicate NoZero(c: Column)
  {
    forall i :: 0 <= i < |c| ==> c[i] != 0.0
  }

  /** Elementwise a / b; a zero divisor yields an absent column here (see README) */
  function VecDiv(a: Option<Column>, b: Option<Column>): (r: Option<Column>)
    ensures r.Some? <==> Compatible(a, b) && NoZero(b.value)
    ensures r.Some? ==> |r.value| == |a.value|
    ensures r.Some? ==> forall i :: 0 <= i < |r.value| ==> r.value[i] * b.value[i] == a.value[i]
  {
    if a.None? || b.None? then None
    else if |a.value| != |b.value| || !NoZero(b.value) then None
    else Some(seq(|a.value|, i requires 0 <= i < |a.value| && b.value[i] != 0.0 => a.value[i] / b.value[i]))
  }

  /** Every element of a divided by the scalar s; s == 0 yields an absent column here */
  function VecDivScalar(a: Option<Column>, s: real): (r: Option<Column>)
    ensures r.Some? <==> a.Some? && s != 0.0
    ensures r.Some? ==> |r.value| == |a.value|
    ensures r.Some? ==> forall i :: 0 <= i < |r.value| ==> r.value[i] * s == a.value[i]
  {
    if a.None? || s == 0.0 then None
    else Some(seq(|a.value|, i requires 0 <= i < |a.value| => a.value[i] / s))
  }

  /** Elementwise a * b */
  function VecMul(a: Option<Column>, b: Option<Column>): (r: Option<Column>)
    ensures r.Some? <==> Compatible(a, b)
    ensures r.Some? ==> |r.value| == |a.value|
    ensures r.Some? ==> forall i :: 0 <= i < |r.value| ==> r.value[i] == a.value[i] * b.value[i]
  {
    if a.None? || b.None? then None
    else if |a.value| != |b.value| then None
    else Some(seq(|a.value|, i requires 0 <= i < |a.value| => a.value[i] * b.value[i]))
  }

  /** Every element of a multiplied by the scalar s */
  function VecMulScalar(a: Option<Column>, s: real): (r: Option<Column>)
    ensures r.Some? <==> a.Some?
    ensures r.Some? ==> |r.value| == |a.value|
    ensures r.Some? ==> forall i :: 0 <= i < |r.value| ==> r.value[i] == a.value[i] * s
  {
    if a.None? then None
    else Some(seq(|a.value|, i requires 0 <= i < |a.value| => a.value[i] * s))
  }

  /** Every element of a raised to the natural exponent e */
  function VecPow(a: Option<Column>, e: nat): (r: Option<Column>)
    ensures r.Some? <==> a.Some?
    ensures r.Some? ==> |r.value| == |a.value|
    ensures r.Some? ==> forall i :: 0 <= i < |r.value| ==> r.value[i] == Pow(a.value[i], e)
  {
    if a.None? then None
    else Some(seq(|a.value|, i requires 0 <= i < |a.value| => Pow(a.value[i], e)))
  }

  /** Elementwise absolute value */
  function VecAbs(a: Option<Column>): (r: Option<Column>)
    ensures r.Some? <==> a.Some?
    ensures r.Some? ==> |r.value| == |a.value|
    ensures r.Some? ==> forall i :: 0 <= i < |r.value| ==> r.value[i] >= 0.0 && (r.value[i] == a.value[i] || r.value[i] == -a.value[i])
  {
    if a.None? then None
    else Some(seq(|a.value|, i requires 0 <= i < |a.value| => Abs(a.value[i])))
  }

  // ---------------------------------------------------------------------
  // Relations between the operations

  /** Adding back what was subtracted restores the left operand */
  lemma SubThenAdd(a: Column, b: Column)
    requires |a| == |b|
    ensures VecAdd(VecSub(Some(a), Some(b)), Some(b)) == Some(a)
  {
    var r := VecAdd(VecSub(Some(a), Some(b)), Some(b));
    assert r.value == a;
  }

  /** Scalar division is undone by multiplying with the same non-zero scalar */
  lemma DivScalarThenMulScalar(a: Column, s: real)
    requires s != 0.0
    ensures VecMulScalar(VecDivScalar(Some(a), s), s) == Some(a)
  {
    var d := VecDivScalar(Some(a), s);
    var r := VecMulScalar(d, s);
    assert forall i :: 0 <= i < |a| ==> r.value[i] == d.value[i] * s == a[i];
    assert r.value == a;
  }

  /** Column division is undone by multiplying with the same divisor */
  lemma DivThenMul(a: Column, b: Column)
    requires |a| == |b| && NoZero(b)
    ensures VecMul(VecDiv(Some(a), Some(b)), Some(b)) == Some(a)
  {
    var d := VecDiv(Some(a), Some(b));
    var r := VecMul(d, Some(b));
    assert forall i :: 0 <= i < |a| ==> r.value[i] == d.value[i] * b[i] == a[i];
    assert r.value == a;
  }

  /** Addition and multiplication are commutative, also in their failures */
  lemma AddMulCommute(a: Option<Column>, b: Option<Column>)
    ensures VecAdd(a, b) == VecAdd(b, a)
    ensures VecMul(a, b) == VecMul(b, a)
  {
    if Compatible(a, b) {
      assert VecAdd(a, b).value == VecAdd(b, a).value;
      assert VecMul(a, b).value == VecMul(b, a).value;
    }
  }

  /** The absolute difference does not depend on the order of the operands */
  lemma AbsSubSymmetric(a: Option<Column>, b: Option<Column>)
    ensures VecAbs(VecSub(a, b)) == VecAbs(VecSub(b, a))
  {
    if Compatible(a, b) {
      assert VecAbs(VecSub(a, b)).value == VecAbs(VecSub(b, a)).value;
    }
  }

  /** Taking the absolute value twice changes nothing */
  lemma AbsIdempotent(a: Option<Column>)
    ensures VecAbs(VecAbs(a)) == VecAbs(a)
  {
    if a.Some? {
      assert VecAbs(VecAbs(a)).value == VecAbs(a).value;
    }
  }

  lemma {:induction false} PowAdd(x: real, m: nat, n: nat)
    ensures Pow(x, m + n) == Pow(x, m) * Pow(x, n)
    decreases m
  {
    if m > 0 {
      PowAdd(x, m - 1, n);
      calc {
        Pow(x, m + n);
        x * Pow(x, (m - 1) + n);
        x * (Pow(x, m - 1) * Pow(x, n));
        (x * Pow(x, m - 1)) * Pow(x, n);
      }
    }
  }

  /** Raising to m + n is multiplying the m-th and n-th powers elementwise */
  lemma VecPowAdd(a: Option<Column>, m: nat, n: nat)
    ensures VecPow(a, m + n) == VecMul(VecPow(a, m), VecPow(a, n))
  {
    if a.Some? {
      forall i | 0 <= i < |a.value|
        ensures VecPow(a, m + n).value[i] == VecMul(VecPow(a, m), VecPow(a, n)).value[i]
      {
        PowAdd(a.value[i], m, n);
      }
      assert VecPow(a, m + n).value == VecMul(VecPow(a, m), VecPow(a, n)).value;
    }
  }

  /** Squaring is multiplying a column with itself */
  lemma VecPowTwo(a: Option<Column>)
    ensures VecPow(a, 2) == VecMul(a, a)
  {
    if a.Some? {
      forall i | 0 <= i < |a.value|
        ensures VecPow(a, 2).value[i] == VecMul(a, a).value[i]
      {
        PowAdd(a.value[i], 1, 1);
      }
      assert VecPow(a, 2).value == VecMul(a, a).value;
    }
  }

  /** A null operand makes every wrapper return null */
  lemma AbsentPropagates(c: Option<Column>, s: real, e: nat)
    ensures VecAdd(None, c) == None && VecAdd(c, None) == None
    ensures VecSub(None, c) == None && VecSub(c, None) == None
    ensures VecDiv(None, c) == None && VecDiv(c, None) == None
    ensures VecMul(None, c) == None && VecMul(c, None) == None
    ensures VecDivScalar(None, s) == None && VecMulScalar(None, s) == None
    ensures VecPow(None, e) == None && VecAbs(None) == None
  {
  }
}
