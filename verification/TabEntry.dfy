/** What table entries of all kinds have in common. */
module TabEntry {
  /** The outcome of merging a flushed string; an entry that refuses one for its header is left as it was. */
  datatype MergeStatus = MergeOk | MergeError
}
