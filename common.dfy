/** Small vocabulary shared by the view-state modules. */
module Common {

  /** A value that may be absent (a missing storage key, a missing attribute). */
  datatype Option<+T> = None | Some(value: T)

  /** The text JavaScript writes when `setAttribute` is given a boolean. */
  function AttrText(b: bool): (s: string)
    ensures s == "true" <==> b
    ensures s == "false" <==> !b
  {
    if b then "true" else "false"
  }

  /** `p` is a prefix of `s`. */
  predicate IsPrefix(p: string, s: string) {
    |p| <= |s| && s[..|p|] == p
  }
}
