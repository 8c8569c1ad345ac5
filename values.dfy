/** Cell and target values of a dataset, abstracted to what the sanitisation
    tests can observe: whether a value is a float, whether it is None, and
    whether np.isfinite holds of it. No floating-point arithmetic is modelled. */
module Values {

  datatype Option<+T> = None | Some(value: T)

  /** One field of a table row. */
  datatype Cell =
    | FloatFinite(value: real)   // a float that np.isfinite accepts
    | FloatNonFinite             // a float NaN or infinity
    | NoneVal                    // Python None
    | Other(text: string)        // any value that is not a float: symbol, date, integer, header text

  predicate IsFloat(c: Cell) {
    c.FloatFinite? || c.FloatNonFinite?
  }

  /** The negation of the sanitisation test
      `not isinstance(val, float) or val is None or not np.isfinite(val)`. */
  predicate IsFiniteFloat(c: Cell) {
    IsFloat(c) && !c.NoneVal? && !c.FloatNonFinite?
  }

  /** One entry of the target vector produced by the user's target function. */
  datatype Label =
    | LabelFinite(value: real)   // a number that np.isfinite accepts
    | LabelNonFinite             // a number NaN or infinity
    | LabelNone                  // Python None
    | LabelOther(text: string)   // neither None nor a number: np.isfinite raises TypeError on it

  /** The negation of the target test `target[i] is None or not np.isfinite(target[i])`,
      where it does not raise. */
  predicate IsFiniteLabel(l: Label) {
    !l.LabelNone? && !l.LabelNonFinite? && !l.LabelOther?
  }

  /** The target test runs without raising: None is caught by `is None`
      before np.isfinite is called, and numbers are accepted by np.isfinite. */
  predicate Checkable(l: Label) {
    !l.LabelOther?
  }

  /** A target entry placed in a row as a trailing field. */
  function LabelCell(l: Label): (c: Cell)
    ensures IsFiniteFloat(c) <==> IsFiniteLabel(l)
  {
    match l
    case LabelFinite(x) => FloatFinite(x)
    case LabelNonFinite => FloatNonFinite
    case LabelNone => NoneVal
    case LabelOther(text) => Other(text)
  }
}
