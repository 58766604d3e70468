/** Guarded statements: what is stated under `Open` stays one unit until a proof asks for its parts. */
module Folding {
  /** Always true; mentioning it unfolds the statements it guards. */
  ghost predicate Open(k: int) {
    true
  }

  // Further guards, for statements that are to be unfolded apart from the others.

  ghost predicate OpenAside(k: int) {
    true
  }

  ghost predicate OpenEdit(k: int) {
    true
  }

  ghost predicate OpenNearest(k: int) {
    true
  }

  ghost predicate OpenHeap(k: int) {
    true
  }

  ghost predicate OpenRecords(k: int) {
    true
  }

  ghost predicate OpenSplit(k: int) {
    true
  }
}
