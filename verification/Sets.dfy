/** Sizes of finite sets. */
module Sets {

  /** A subset is no larger, and equal when it is as large. */
  lemma SubsetSize<T>(s: set<T>, t: set<T>)
    requires s <= t
    ensures |s| <= |t|
    ensures |s| == |t| ==> s == t
  {
    assert t == s + (t - s);
    if |s| == |t| {
      assert t - s == {};
    }
  }
}
