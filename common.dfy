/** Small shared vocabulary: optional values, the exceptions that escape the
    bot's entry points, and a result that is either a value or such an
    exception. */
module Common {

  datatype Option<+T> = None | Some(value: T)

  /** The Python exceptions the modelled code lets propagate to its caller.
      `PatternError` stands for any failure to render (`%` substitution) or
      compile a trigger pattern. */
  datatype Exc =
    | KeyError
    | AttributeError
    | TypeError
    | ValueError
    | IndexError
    | ImportError
    | PatternError

  datatype Result<+T> = Ok(value: T) | Raised(error: Exc)

  /** The groups of a regular-expression match; an optional group that
      did not take part is `None`. */
  type Match = seq<Option<string>>

  /** True when `s` begins with `p`, as Python's `str.startswith`. */
  predicate StartsWith(s: string, p: string)
  {
    |p| <= |s| && s[..|p|] == p
  }
}
