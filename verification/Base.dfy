/** Types every component shares. */
module Base {
  type byte = x: int | 0 <= x < 0x100

  datatype Option<+T> = None | Some(value: T)

  /** Sequence `t` starts with `s`. */
  ghost predicate IsPrefix<T>(s: seq<T>, t: seq<T>) { |s| <= |t| && s == t[..|s|] }
}
