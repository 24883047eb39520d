/** The line-number setting of the pager (src/utils/mod.rs). */
module LineNumbering {

  /** `AlwaysOn`/`AlwaysOff` are locked in by the application; `Enabled`/
      `Disabled` may be toggled by the user. */
  datatype LineNumbers = AlwaysOn | Enabled | Disabled | AlwaysOff

  /** `!ln`: toggles the user-switchable settings and keeps the locked ones. */
  function Not(ln: LineNumbers): (r: LineNumbers)
    ensures ln == Enabled <==> r == Disabled
    ensures ln == Disabled <==> r == Enabled
    ensures ln == AlwaysOn <==> r == AlwaysOn
    ensures ln == AlwaysOff <==> r == AlwaysOff
  {
    match ln
    case Enabled => Disabled
    case Disabled => Enabled
    case _ => ln
  }

  /** `ln.is_invertible()`. */
  predicate IsInvertible(ln: LineNumbers)
  {
    ln == Enabled || ln == Disabled
  }

  /** Whether the formatter draws a number gutter for this setting. */
  predicate ShowsNumbers(ln: LineNumbers)
  {
    ln == Enabled || ln == AlwaysOn
  }

  /** `!` is an involution. */
  lemma NotInvolution(ln: LineNumbers)
    ensures Not(Not(ln)) == ln
  {
  }

  /** A setting is invertible exactly when `!` changes it, and inverting it
      flips whether the gutter is drawn. */
  lemma InvertibleIffNotChanges(ln: LineNumbers)
    ensures IsInvertible(ln) <==> Not(ln) != ln
    ensures IsInvertible(ln) ==> ShowsNumbers(Not(ln)) != ShowsNumbers(ln)
    ensures !IsInvertible(ln) ==> ShowsNumbers(Not(ln)) == ShowsNumbers(ln)
  {
  }
}
