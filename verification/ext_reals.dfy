/** Real numbers extended with positive infinity, standing for the source's
    use of `Infinity` as "never" (a zone whose flow does not drop, a zone
    without live data). */
module ExtReals {

  datatype ExtReal = Fin(value: real) | PosInf

  /** The usual order, with `PosInf` above every finite value. */
  predicate Le(a: ExtReal, b: ExtReal) {
    b.PosInf? || (a.Fin? && a.value <= b.value)
  }

  predicate Lt(a: ExtReal, b: ExtReal) {
    a.Fin? && (b.PosInf? || a.value < b.value)
  }

  /** `x + a` for a finite `x`: infinity absorbs. */
  function Plus(x: real, a: ExtReal): ExtReal {
    match a
    case Fin(v) => Fin(x + v)
    case PosInf => PosInf
  }
}
