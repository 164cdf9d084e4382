// The functions of the library that look settings up.
module Lookup {
  import opened Settings
  import opened Arena
  import opened Paths
  import opened PathScan

  // The difference that decides between two names: the end of a name comes before any
  // character.
  function Difference(a: string, b: string): int
  {
    if a == "" && b == "" then 0
    else if a == "" then -1
    else if b == "" then 1
    else if a[0] < b[0] then -1
    else if a[0] > b[0] then 1
    else Difference(a[1..], b[1..])
  }

  lemma {:induction false} DifferenceZero(a: string, b: string)
    ensures Difference(a, b) == 0 <==> a == b
  {
    if a != "" && b != "" && a[0] == b[0] {
      DifferenceZero(a[1..], b[1..]);
      assert a == [a[0]] + a[1..] && b == [b[0]] + b[1..];
    }
  }

  // __config_name_compare: compares up to the first separator of each.
  method NameCompare(a: string, b: string) returns (r: int)
    ensures r == Difference(Head(a), Head(b))
    ensures r == 0 <==> Head(a) == Head(b)
  {
    DifferenceZero(Head(a), Head(b));
    assert a[0..] == a && b[0..] == b;
    var p := 0;
    while true
      invariant p <= |a| && p <= |b|
      invariant Difference(Head(a), Head(b)) == Difference(Head(a[p..]), Head(b[p..]))
      decreases |a| - p
    {
      HeadFrom(a, p);
      HeadFrom(b, p);
      var pd := p == |a| || IsSeparator(a[p]);
      var qd := p == |b| || IsSeparator(b[p]);
      if pd && qd {
        return 0;
      } else if pd {
        return -1;
      } else if qd {
        return 1;
      } else if a[p] < b[p] {
        return -1;
      } else if a[p] > b[p] {
        return 1;
      }
      p := p + 1;
    }
  }

  lemma TailIn(ks: seq<nat>, i: nat, n: nat)
    requires i <= |ks| && forall k | k in ks :: k < n
    ensures forall k | k in ks[i..] :: k < n
  {
    forall k | k in ks[i..]
      ensures k in ks
    {
      var j :| 0 <= j < |ks[i..]| && ks[i..][j] == k;
      assert ks[i + j] == k;
    }
  }

  // __config_list_search
  method ListSearch(ns: seq<Node>, ks: seq<nat>, name: string) returns (r: Option<nat>)
    requires forall k | k in ks :: k < |ns|
    ensures r == FirstNamed(ns, ks, name)
  {
    var i := 0;
    while i < |ks|
      invariant i <= |ks| && forall k | k in ks[i..] :: k < |ns|
      invariant FirstNamed(ns, ks, name) == FirstNamed(ns, ks[i..], name)
    {
      assert ks[i] in ks && ks[i..][0] == ks[i] && ks[i..][1..] == ks[i + 1..];
      TailIn(ks, i + 1, |ns|);
      if ns[ks[i]].name.Some? {
        var d := NameCompare(name, ns[ks[i]].name.value);
        if d == 0 {
          return Some(ks[i]);
        }
      }
      i := i + 1;
    }
    r := None;
  }

  // config_setting_get_elem
  method GetElem(ns: seq<Node>, x: nat, i: nat) returns (r: Option<nat>)
    requires x < |ns|
    ensures r == Element(ns, x, i)
  {
    if ns[x].kind != ArrayKind && ns[x].kind != ListKind && ns[x].kind != GroupKind {
      return None;
    }
    if i >= |ns[x].kids| {
      return None;
    }
    r := Some(ns[x].kids[i]);
  }

  // config_setting_get_member
  method GetMember(ns: seq<Node>, x: nat, name: string) returns (r: Option<nat>)
    requires Sound(ns) && x < |ns|
    ensures r == Member(ns, x, name)
  {
    if ns[x].kind != GroupKind {
      return None;
    }
    KidsInStore(ns, x);
    r := ListSearch(ns, ns[x].kids, name);
  }

  method SkipSeparators(path: string, p: nat) returns (q: nat)
    requires p <= |path|
    ensures p <= q <= |path| && Segments(path[q..]) == Segments(path[p..])
    ensures q < |path| ==> !IsSeparator(path[q])
    ensures p < q ==> IsSeparator(path[q - 1])
  {
    q := p;
    while q < |path| && IsSeparator(path[q])
      invariant p <= q <= |path| && Segments(path[q..]) == Segments(path[p..])
      invariant p < q ==> IsSeparator(path[q - 1])
    {
      assert path[q..][1..] == path[q + 1..];
      q := q + 1;
    }
  }

  method SkipSegment(path: string, p: nat) returns (q: nat)
    requires p <= |path|
    ensures q == p + |Head(path[p..])| <= |path|
    ensures q < |path| ==> IsSeparator(path[q])
  {
    q := p;
    HeadFrom(path, q);
    while q < |path| && !IsSeparator(path[q])
      invariant p <= q <= |path| && q + |Head(path[q..])| == p + |Head(path[p..])|
    {
      HeadFrom(path, q);
      q := q + 1;
    }
    HeadFrom(path, q);
  }

  // Follows the segment at p, and reports how far the path has been read by then.
  method FollowSegment(ns: seq<Node>, x: nat, path: string, p: nat) returns (found: Option<nat>, q: nat)
    requires Sound(ns) && x < |ns| && p < |path| && !IsSeparator(path[p])
    ensures found == Follow(ns, x, Head(path[p..]))
    ensures q == if path[p] == '[' then p + 1 else p
  {
    HeadFrom(path, p);
    FollowHead(ns, x, path[p..]);
    if path[p] == '[' {
      q := p + 1;
      found := GetElem(ns, x, Unsigned(Atoi(path[q..])));
      assert path[p..][1..] == path[q..];
    } else {
      q := p;
      found := GetMember(ns, x, path[p..]);
    }
  }

  // A segment means the same with the rest of the path after it.
  lemma FollowHead(ns: seq<Node>, x: nat, s: string)
    requires Sound(ns) && x < |ns| && s != "" && !IsSeparator(s[0])
    ensures s[0] == '[' ==> Follow(ns, x, Head(s)) == Element(ns, x, Unsigned(Atoi(s[1..])))
    ensures s[0] != '[' ==> Follow(ns, x, Head(s)) == Member(ns, x, s)
  {
    if s[0] == '[' {
      assert Head(s)[1..] == Head(s[1..]);
      AtoiOfHead(s[1..]);
    } else {
      KidsInStore(ns, x);
      HeadOf(Head(s), "");
      assert Head(s) + "" == Head(s);
      FirstNamedOfHead(ns, ns[x].kids, s);
    }
  }

  lemma {:induction false} FirstNamedOfHead(ns: seq<Node>, ks: seq<nat>, s: string)
    requires (forall k | k in ks :: k < |ns|) && Head(Head(s)) == Head(s)
    ensures FirstNamed(ns, ks, Head(s)) == FirstNamed(ns, ks, s)
  {
    if ks != [] {
      assert ks[0] in ks && forall k | k in ks[1..] :: k in ks;
      FirstNamedOfHead(ns, ks[1..], s);
    }
  }

  lemma {:induction false} DigitsOfHead(s: string, value: nat)
    ensures Digits(Head(s), value) == Digits(s, value)
  {
    if s != "" && !IsSeparator(s[0]) {
      assert Head(s)[1..] == Head(s[1..]);
      if IsDigit(s[0]) {
        DigitsOfHead(s[1..], value * 10 + DigitValue(s[0]));
      }
    }
  }

  lemma {:induction false} AtoiOfHead(s: string)
    ensures Atoi(Head(s)) == Atoi(s)
  {
    DigitsOfHead(s, 0);
    if s != "" && !IsSeparator(s[0]) {
      assert Head(s)[1..] == Head(s[1..]);
      DigitsOfHead(s[1..], 0);
      AtoiOfHead(s[1..]);
    }
  }

  // Follows the segment at q and goes to its end, unless it leads nowhere.
  method TakeSegment(ns: seq<Node>, ghost root: nat, path: string, x: nat, q: nat) returns (found: Option<nat>, p: nat)
    requires Sound(ns) && Along(ns, root, path, x, q) && q < |path| && !IsSeparator(path[q])
    requires q > 0 ==> IsSeparator(path[q - 1])
    ensures q <= p && if found.Some? then q < p && Along(ns, root, path, found.value, p)
      else Found(ns, root, path) == if p < |path| then None else Some(x)
    ensures found.Some? && p < |path| ==> IsSeparator(path[p])
  {
    found, p := FollowSegment(ns, x, path, q);
    if found.None? {
      Failed(ns, root, path, x, q, p);
    } else {
      Followed(ns, root, path, x, q, found.value);
      SegmentEnd(path, q, p);
      p := SkipSegment(path, p);
    }
  }

  // config_setting_lookup
  method SettingLookup(ns: seq<Node>, root: nat, path: string) returns (r: Option<nat>)
    requires Sound(ns) && root < |ns|
    ensures r == Found(ns, root, path)
  {
    var setting, p := root, 0;
    Start(ns, root, path);
    while true
      invariant Along(ns, root, path, setting, p)
      invariant 0 < p < |path| ==> IsSeparator(path[p])
      decreases |path| - p
    {
      var q := SkipSeparators(path, p);
      Skipped(ns, root, path, setting, p, q);
      if q == |path| {
        Ended(ns, root, path, setting);
        return Some(setting);
      }
      var found;
      found, p := TakeSegment(ns, root, path, setting, q);
      if found.None? {
        return if p < |path| then None else Some(setting);
      }
      setting := found.value;
    }
  }
}
