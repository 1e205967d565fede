/** Stock facts about finite sets and natural-number products. */
module Counting {
  lemma SubsetSize<T>(a: set<T>, b: set<T>)
    requires a <= b
    ensures |a| <= |b|
  {
    if a != {} {
      var x :| x in a;
      SubsetSize(a - {x}, b - {x});
    }
  }

  /** Dropping the major digit pays for any minor digit below the base. */
  lemma DigitsDecrease(major: nat, minor: nat, major': nat, minor': nat, base: nat)
    requires minor' < base
    requires major' < major
    ensures major' * base + minor' < major * base + minor
  {
    assert (major' + 1) * base <= major * base;
  }
}
