/** Sizes of finite sets. */
module Sets {
  lemma FewerLeft(all: set<nat>, s: set<nat>, t: set<nat>)
    requires s <= t <= all
    ensures |all - t| <= |all - s|
    ensures s != t ==> |all - t| < |all - s|
  {
    SubsetSize(all - t, all - s);
    if s != t {
      var b :| b in t && b !in s;
      SubsetSize(all - t, all - s - {b});
    }
  }

  lemma {:induction false} SubsetSize(s: set<nat>, t: set<nat>)
    requires s <= t
    ensures |s| <= |t|
    ensures s != t ==> |s| < |t|
    decreases s
  {
    if s != {} {
      var b :| b in s;
      SubsetSize(s - {b}, t - {b});
    }
  }
}
