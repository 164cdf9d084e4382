// The positions of the scan in the path.
module PathScan {
  import opened Settings
  import opened Arena
  import opened Paths
  import opened Sealing

  lemma HeadFrom(s: string, p: nat)
    requires p <= |s|
    ensures p == |s| || IsSeparator(s[p]) ==> Head(s[p..]) == ""
    ensures p < |s| && !IsSeparator(s[p]) ==> Head(s[p..]) == [s[p]] + Head(s[p + 1..])
  {
    if p < |s| {
      assert s[p..][1..] == s[p + 1..];
    }
  }

  // The segments read before p lead from the root to x; sealed, so that the scan does not
  // unfold the descent.
  ghost predicate Along(ns: seq<Node>, root: nat, path: string, x: nat, p: nat)
  {
    && root < |ns| && x < |ns| && p <= |path|
    && forall k :: Unfold(k) ==>
         Sound(ns) && exists done ::
           Segments(path) == done + Segments(path[p..]) && Descend(ns, root, done) == Some(x)
  }

  lemma Start(ns: seq<Node>, root: nat, path: string)
    requires Sound(ns) && root < |ns|
    ensures Along(ns, root, path, root, 0)
  {
    assert path[0..] == path && Segments(path) == [] + Segments(path[0..]);
    assert Descend(ns, root, []) == Some(root);
  }

  lemma Skipped(ns: seq<Node>, root: nat, path: string, x: nat, p: nat, q: nat)
    requires Along(ns, root, path, x, p) && q <= |path| && Segments(path[q..]) == Segments(path[p..])
    ensures Along(ns, root, path, x, q)
  {
    assert Unfold(0);
  }

  lemma Ended(ns: seq<Node>, root: nat, path: string, x: nat)
    requires Sound(ns) && Along(ns, root, path, x, |path|)
    ensures Found(ns, root, path) == Some(x)
  {
    assert Unfold(0);
    var done :| Segments(path) == done + Segments(path[|path|..]) && Descend(ns, root, done) == Some(x);
    assert done + [] == done;
  }

  lemma Followed(ns: seq<Node>, root: nat, path: string, x: nat, q: nat, y: nat)
    requires Sound(ns) && Along(ns, root, path, x, q) && y < |ns| && q < |path| && !IsSeparator(path[q])
    requires Follow(ns, x, Head(path[q..])) == Some(y)
    ensures 0 < |Head(path[q..])| <= |path| - q && Along(ns, root, path, y, q + |Head(path[q..])|)
  {
    assert Unfold(0);
    var done :| Segments(path) == done + Segments(path[q..]) && Descend(ns, root, done) == Some(x);
    SegmentDone(ns, root, path, done, x, q, y);
  }

  lemma Failed(ns: seq<Node>, root: nat, path: string, x: nat, p: nat, q: nat)
    requires Sound(ns) && Along(ns, root, path, x, p) && p < |path| && !IsSeparator(path[p])
    requires p > 0 ==> IsSeparator(path[p - 1])
    requires Follow(ns, x, Head(path[p..])) == None && q == if path[p] == '[' then p + 1 else p
    ensures Found(ns, root, path) == if q < |path| then None else Some(x)
  {
    assert Unfold(0);
    var done :| Segments(path) == done + Segments(path[p..]) && Descend(ns, root, done) == Some(x);
    Stuck(ns, root, path, done, x, p, q);
  }

  // The first segment of what is left leads nowhere, with the path read up to q.
  lemma Stuck(ns: seq<Node>, root: nat, path: string, done: seq<string>, x: nat, p: nat, q: nat)
    requires Sound(ns) && root < |ns| && x < |ns| && p < |path| && !IsSeparator(path[p])
    requires p > 0 ==> IsSeparator(path[p - 1])
    requires Segments(path) == done + Segments(path[p..]) && Descend(ns, root, done) == Some(x)
    requires Follow(ns, x, Head(path[p..])) == None && q == if path[p] == '[' then p + 1 else p
    ensures Found(ns, root, path) == if q < |path| then None else Some(x)
  {
    var h, rest := SegmentAt(path, p);
    StuckAt(ns, root, path, done, x, h, rest);
  }

  lemma SegmentAt(path: string, p: nat) returns (h: string, rest: seq<string>)
    requires p < |path| && !IsSeparator(path[p]) && (p > 0 ==> IsSeparator(path[p - 1]))
    ensures h == Head(path[p..]) && Segments(path[p..]) == [h] + rest
    ensures path[p] == '[' && p + 1 == |path| <==> EndsInBracket(path) && rest == []
  {
    h := Head(path[p..]);
    HeadFrom(path, p);
    rest := Segments(path[p + |h|..]);
    assert path[p..][|h|..] == path[p + |h|..];
    BracketAtEnd(path, p, h, rest);
  }

  lemma StuckAt(ns: seq<Node>, root: nat, path: string, done: seq<string>, x: nat, h: string, rest: seq<string>)
    requires Sound(ns) && root < |ns| && x < |ns|
    requires Segments(path) == done + ([h] + rest)
    requires Descend(ns, root, done) == Some(x) && Follow(ns, x, h) == None
    ensures Found(ns, root, path) == if EndsInBracket(path) && rest == [] then Some(x) else None
  {
    NowhereFrom(ns, root, done, x, h, rest);
    if rest == [] {
      assert (done + ([h] + rest))[..|done|] == done;
    } else {
      var front := rest[..|rest| - 1];
      assert (done + ([h] + rest))[..|done| + |rest|] == done + ([h] + front);
      NowhereFrom(ns, root, done, x, h, front);
    }
  }

  lemma NowhereFrom(ns: seq<Node>, root: nat, done: seq<string>, x: nat, h: string, rest: seq<string>)
    requires Sound(ns) && root < |ns| && x < |ns|
    requires Descend(ns, root, done) == Some(x) && Follow(ns, x, h) == None
    ensures Descend(ns, root, done + ([h] + rest)) == None
  {
    DescendOn(ns, root, done, [h] + rest);
  }

  // The path is read to its end at a segment only if that is a lone bracket at the end.
  lemma BracketAtEnd(path: string, p: nat, h: string, rest: seq<string>)
    requires p < |path| && !IsSeparator(path[p]) && (p > 0 ==> IsSeparator(path[p - 1]))
    requires h == Head(path[p..]) && 0 < |h| <= |path| - p && rest == Segments(path[p + |h|..])
    ensures path[p] == '[' && p + 1 == |path| <==> EndsInBracket(path) && rest == []
  {
    if path[p] == '[' && p + 1 == |path| {
      assert path[p + |h|..] == "";
    } else if EndsInBracket(path) && rest == [] {
      var t := path[p + |h|..];
      if |t| > 0 {
        assert t[0] == path[p..][|h|] && t[|t| - 1] == '[';
        assert |t| > 1 && t[|t| - 2] == path[|path| - 2];
        LastBracket(t);
      }
    }
  }

  lemma SegmentDone(ns: seq<Node>, root: nat, path: string, done: seq<string>, x: nat, q: nat, y: nat)
    requires Sound(ns) && root < |ns| && x < |ns| && y < |ns| && q < |path| && !IsSeparator(path[q])
    requires Segments(path) == done + Segments(path[q..]) && Descend(ns, root, done) == Some(x)
    requires Follow(ns, x, Head(path[q..])) == Some(y)
    ensures var h := Head(path[q..]);
      0 < |h| <= |path| - q && Segments(path) == done + [h] + Segments(path[q + |h|..])
    ensures Descend(ns, root, done + [Head(path[q..])]) == Some(y)
  {
    var h := Head(path[q..]);
    HeadFrom(path, q);
    assert path[q..][|h|..] == path[q + |h|..];
    assert done + ([h] + Segments(path[q + |h|..])) == done + [h] + Segments(path[q + |h|..]);
    DescendOne(ns, root, done, x, h, y);
  }

  lemma DescendOne(ns: seq<Node>, root: nat, done: seq<string>, x: nat, h: string, y: nat)
    requires Sound(ns) && root < |ns| && x < |ns| && y < |ns|
    requires Descend(ns, root, done) == Some(x) && Follow(ns, x, h) == Some(y)
    ensures Descend(ns, root, done + [h]) == Some(y)
  {
    DescendOn(ns, root, done, [h]);
    assert [h][1..] == [];
  }

  lemma SegmentEnd(path: string, q: nat, p: nat)
    requires q < |path| && !IsSeparator(path[q]) && (p == q || p == q + 1)
    ensures p + |Head(path[p..])| == q + |Head(path[q..])|
  {
    HeadFrom(path, q);
  }
}
