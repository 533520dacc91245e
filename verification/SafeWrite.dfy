/** What one call of the atomic-write helpers can do to the file it targets. */
module SafeWrite {

  datatype Option<+T> = None | Some(value: T)

  /** `Written`: the new content is in place and the helper returned true.
      `KeptOld`: it returned false and left the old file alone.
      `LostOld`: it returned false after the old file had been renamed to its
      backup name, so that nothing is left at the path. */
  datatype WriteOutcome = Written | KeptOld | LostOld

  /** The directory `m` after an attempt to write `v` at `k`. */
  function Put<K, V>(m: map<K, V>, k: K, v: V, outcome: WriteOutcome): map<K, V> {
    match outcome
    case Written => m[k := v]
    case KeptOld => m
    case LostOld => m - {k}
  }

  /** The same for a single file. */
  function Replace<T>(before: Option<T>, v: T, outcome: WriteOutcome): Option<T> {
    match outcome
    case Written => Some(v)
    case KeptOld => before
    case LostOld => None
  }
}
