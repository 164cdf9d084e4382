// Picking members of finite sets.
module Sets {

  lemma HasMember(s: set<int>)
    requires |s| > 0
    ensures exists x :: x in s
  {
    assert (forall x :: x !in s) ==> s == {};
  }

  // Some member, always the same one.
  ghost function Any(s: set<int>): (x: int)
    requires |s| > 0
    ensures x in s
  {
    HasMember(s);
    var x :| x in s;
    x
  }

  lemma SubsetIsSmaller(s: set<int>, t: set<int>)
    requires s <= t
    ensures |s| <= |t|
    decreases |s|
  {
    if |s| != 0 {
      var x := Any(s);
      SubsetIsSmaller(s - {x}, t - {x});
    }
  }
}
