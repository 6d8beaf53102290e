/** Definitions shared by every stage of the engine: optional values, the
    error taxonomy and the 26-slot variable table. */
module Common {
  import opened Float

  datatype Option<+T> = None | Some(value: T)

  /** The error kinds of a result record, in the order of the source's enum.
      `NoError` is the zero-initialised kind of a record that reports success
      (and of a failed compile-mode evaluation, which sets no kind). */
  datatype ErrorKind =
    | NoError
    | InvalidToken
    | InvalidExpression
    | EmptyExpression
    | InvalidNode
    | InvalidFunction
    | ZeroDivision

  /** A variable name: one lower-case ASCII letter. */
  type Letter = c: char | 'a' <= c <= 'z' witness 'a'

  /** A variable table: one value per letter, indexed by `letter - 'a'`. */
  type Table = t: seq<F64> | |t| == 26 witness seq(26, _ => Zero)

  /** Every slot holds +0.0, as in a zero-initialised engine. */
  const ZeroTable: Table := Zeros(26)

  /** `n` copies of +0.0. */
  function Zeros(n: nat): (r: seq<F64>)
    ensures |r| == n && forall i :: 0 <= i < n ==> r[i] == Zero
  {
    if n == 0 then [] else Zeros(n - 1) + [Zero]
  }

  /** The slot of a letter in a variable table. */
  function Slot(c: Letter): (k: nat)
    ensures k < 26
    ensures c == (('a' as int) + k) as char
  {
    c as int - 'a' as int
  }

  /** Distinct letters occupy distinct slots. */
  lemma SlotInjective(c: Letter, d: Letter)
    ensures Slot(c) == Slot(d) <==> c == d
  {
  }

  /** Writes one slot and leaves the other 25 alone. */
  function Store(t: Table, c: Letter, v: F64): (r: Table)
    ensures r[Slot(c)] == v
    ensures forall k :: 0 <= k < 26 && k != Slot(c) ==> r[k] == t[k]
  {
    t[Slot(c) := v]
  }
}
