/**
 * Reals extended with numpy's positive infinity. The curves end with an
 * `np.inf` sentinel row, and numpy's arithmetic and comparisons on it are
 * modelled case by case: `inf` absorbs addition, `inf >= inf` holds and
 * `inf > inf` does not. Negative infinity never arises in the engine.
 */
module ExtReal {
  datatype Ext = Fin(r: real) | Inf

  /** numpy's `a <= b`. */
  predicate Le(a: Ext, b: Ext) {
    b.Inf? || (a.Fin? && a.r <= b.r)
  }

  /** numpy's `a < b`. */
  predicate Lt(a: Ext, b: Ext) {
    a.Fin? && (b.Inf? || a.r < b.r)
  }

  /** numpy's `a + b`. */
  function Add(a: Ext, b: Ext): Ext {
    if a.Fin? && b.Fin? then Fin(a.r + b.r) else Inf
  }

  /** Python's `min(a, b)`: the first argument unless the second is smaller. */
  function Min(a: Ext, b: Ext): (m: Ext)
    ensures Le(m, a) && Le(m, b)
    ensures m == a || m == b
  {
    if Lt(b, a) then b else a
  }

  /** numpy's `(a + b) / 2`. */
  function Mid(a: Ext, b: Ext): (m: Ext)
    ensures m.Fin? <==> a.Fin? && b.Fin?
    ensures Le(b, a) ==> Le(b, m) && Le(m, a)
    ensures Lt(b, a) && a.Fin? ==> Lt(b, m) && Lt(m, a)
  {
    if a.Fin? && b.Fin? then Fin((a.r + b.r) / 2.0) else Inf
  }
}
