// Finding a setting by its path: the scan over the bytes of the path, and the descent
// along the segments of the path that it amounts to.
module Paths {
  import opened Settings
  import opened Arena

  // ---------- Paths ----------

  // PATH_TOKENS
  predicate IsSeparator(c: char)
  {
    c == ':' || c == '/'
  }

  // The text up to the first separator.
  function Head(s: string): (h: string)
    ensures h <= s && (forall i :: 0 <= i < |h| ==> !IsSeparator(h[i]))
    ensures |h| < |s| ==> IsSeparator(s[|h|])
  {
    if s == "" || IsSeparator(s[0]) then "" else [s[0]] + Head(s[1..])
  }

  // The non-empty pieces between separators.
  function Segments(s: string): (segs: seq<string>)
    ensures forall i :: 0 <= i < |segs| ==> segs[i] != ""
    decreases |s|
  {
    if s == "" then []
    else if IsSeparator(s[0]) then Segments(s[1..])
    else [Head(s)] + Segments(s[|Head(s)|..])
  }

  // ---------- Numbers ----------

  predicate IsDigit(c: char)
  {
    '0' <= c <= '9'
  }

  predicate IsSpace(c: char)
  {
    c == ' ' || 9 <= c as int <= 13
  }

  function DigitValue(c: char): nat
    requires IsDigit(c)
  {
    c as int - '0' as int
  }

  function Digits(s: string, value: nat): nat
  {
    if s == "" || !IsDigit(s[0]) then value else Digits(s[1..], value * 10 + DigitValue(s[0]))
  }

  // atoi
  function Atoi(s: string): int
  {
    if s != "" && IsSpace(s[0]) then Atoi(s[1..])
    else if s != "" && s[0] == '-' then 0 - Digits(s[1..], 0)
    else if s != "" && s[0] == '+' then Digits(s[1..], 0)
    else Digits(s, 0)
  }

  function Decimal(n: nat): (s: string)
    ensures s != "" && forall i :: 0 <= i < |s| ==> IsDigit(s[i])
  {
    var d := ('0' as int + n % 10) as char;
    if n < 10 then [d] else Decimal(n / 10) + [d]
  }

  // An int passed as an unsigned int.
  function Unsigned(i: int): nat
  {
    i % 0x1_0000_0000
  }

  // ---------- One level ----------

  // The first of these records that has this name. A name counts up to its first separator.
  function FirstNamed(ns: seq<Node>, ks: seq<nat>, name: string): Option<nat>
    requires forall k | k in ks :: k < |ns|
  {
    if ks == [] then None
    else
      assert ks[0] in ks && forall k | k in ks[1..] :: k in ks;
      if ns[ks[0]].name.Some? && Head(ns[ks[0]].name.value) == Head(name) then Some(ks[0])
      else FirstNamed(ns, ks[1..], name)
  }

  function Element(ns: seq<Node>, x: nat, i: nat): Option<nat>
    requires x < |ns|
  {
    if IsContainer(ns[x].kind) && i < |ns[x].kids| then Some(ns[x].kids[i]) else None
  }

  ghost function Member(ns: seq<Node>, x: nat, name: string): Option<nat>
    requires Sound(ns) && x < |ns|
  {
    KidsInStore(ns, x);
    if ns[x].kind != GroupKind then None else FirstNamed(ns, ns[x].kids, name)
  }

  lemma KidsInStore(ns: seq<Node>, x: nat)
    requires Sound(ns) && x < |ns|
    ensures forall k | k in ns[x].kids :: x < k < |ns|
  {
    assert NodeOk(ns, x);
  }

  lemma {:induction false} FirstNamedIsThere(ns: seq<Node>, ks: seq<nat>, name: string)
    requires forall k | k in ks :: k < |ns|
    ensures FirstNamed(ns, ks, name).Some? ==> FirstNamed(ns, ks, name).value in ks
  {
    if ks != [] {
      assert ks[0] in ks && forall k | k in ks[1..] :: k in ks;
      FirstNamedIsThere(ns, ks[1..], name);
    }
  }

  // ---------- The descent ----------

  // Where one segment leads from record x.
  ghost function Follow(ns: seq<Node>, x: nat, seg: string): (r: Option<nat>)
    requires Sound(ns) && x < |ns|
    ensures r.Some? ==> x < r.value < |ns|
  {
    KidsInStore(ns, x);
    FirstNamedIsThere(ns, ns[x].kids, seg);
    assert forall i :: 0 <= i < |ns[x].kids| ==> ns[x].kids[i] in ns[x].kids;
    if seg != "" && seg[0] == '[' then Element(ns, x, Unsigned(Atoi(seg[1..]))) else Member(ns, x, seg)
  }

  ghost function Descend(ns: seq<Node>, x: nat, segs: seq<string>): (r: Option<nat>)
    requires Sound(ns) && x < |ns|
    ensures r.Some? ==> r.value < |ns|
    decreases |segs|
  {
    if segs == [] then Some(x)
    else
      var y := Follow(ns, x, segs[0]);
      if y.None? then None else Descend(ns, y.value, segs[1..])
  }

  lemma {:induction false} DescendOn(ns: seq<Node>, x: nat, a: seq<string>, b: seq<string>)
    requires Sound(ns) && x < |ns|
    ensures var y := Descend(ns, x, a);
      Descend(ns, x, a + b) == if y.None? then None else Descend(ns, y.value, b)
    decreases |a|
  {
    if a == [] {
      assert a + b == b;
    } else {
      assert (a + b)[1..] == a[1..] + b;
      var y := Follow(ns, x, a[0]);
      if y.Some? {
        DescendOn(ns, y.value, a[1..], b);
      }
    }
  }

  // The path ends in a segment that is an opening bracket and nothing else.
  predicate EndsInBracket(path: string)
  {
    path != "" && path[|path| - 1] == '[' && (|path| == 1 || IsSeparator(path[|path| - 2]))
  }

  // What looking up a path gives: the record the segments lead to. If that fails on a lone
  // bracket at the very end, the record reached before it is given instead.
  ghost function Found(ns: seq<Node>, x: nat, path: string): Option<nat>
    requires Sound(ns) && x < |ns|
  {
    var segs := Segments(path);
    var y := Descend(ns, x, segs);
    if y.None? && EndsInBracket(path) && segs != [] then Descend(ns, x, segs[..|segs| - 1]) else y
  }

  // ---------- Splitting ----------

  lemma {:induction false} LastBracket(path: string)
    requires EndsInBracket(path)
    ensures Segments(path) != [] && Segments(path)[|Segments(path)| - 1] == "["
    decreases |path|
  {
    if IsSeparator(path[0]) {
      assert EndsInBracket(path[1..]);
      LastBracket(path[1..]);
    } else {
      var h := Head(path);
      if |h| == |path| {
        assert h == path;
        assert path[|h|..] == "";
      } else {
        var t := path[|h|..];
        assert t[0] == path[|h|] && t[|t| - 1] == '[';
        assert |t| > 1;
        assert t[|t| - 2] == path[|path| - 2];
        LastBracket(t);
      }
    }
  }

  // The byte scan and the descent along the segments differ on exactly these lookups: a
  // lone bracket at the end, below a record without elements.
  lemma ScanDiffers(ns: seq<Node>, x: nat, path: string)
    requires Sound(ns) && x < |ns|
    ensures Found(ns, x, path) != Descend(ns, x, Segments(path)) <==>
      EndsInBracket(path) && var segs := Segments(path);
        segs != [] && var y := Descend(ns, x, segs[..|segs| - 1]); y.Some? && ns[y.value].kids == []
  {
    var segs := Segments(path);
    if EndsInBracket(path) {
      LastBracket(path);
      var n := |segs| - 1;
      var y := Descend(ns, x, segs[..n]);
      assert segs == segs[..n] + ["["];
      DescendOn(ns, x, segs[..n], ["["]);
      if y.Some? {
        FollowBracket(ns, y.value);
      }
    }
  }

  // The least such lookup: a bracket in an empty configuration finds the configuration itself.
  lemma BracketExample() returns (ns: seq<Node>)
    ensures Sound(ns) && |ns| == 1 && Found(ns, 0, "[") == Some(0) && Descend(ns, 0, Segments("[")) == None
  {
    ns := [Node(None, GroupKind, NoValue, None, [])];
    assert forall i :: NodeOk(ns, i);
    LastBracket("[");
    assert Head("[") == "[" && "["[1..] == "";
    assert Segments("[") == ["["];
    FollowBracket(ns, 0);
    assert ["["][..0] == [];
  }

  // A lone bracket leads to the first element.
  lemma FollowBracket(ns: seq<Node>, y: nat)
    requires Sound(ns) && y < |ns|
    ensures Descend(ns, y, ["["]) == if ns[y].kids == [] then None else Some(ns[y].kids[0])
  {
    assert NodeOk(ns, y);
    assert "["[1..] == "" && Atoi("") == 0;
    var r := Follow(ns, y, "[");
    assert ["["][1..] == [];
    assert r == Element(ns, y, 0);
  }

  // ---------- Building paths ----------

  // Segments joined by separators.
  function Join(segs: seq<string>, separators: seq<char>): string
    requires |segs| <= |separators| + 1
  {
    if segs == [] then ""
    else if |segs| == 1 then segs[0]
    else segs[0] + [separators[0]] + Join(segs[1..], separators[1..])
  }

  predicate IsSegment(s: string)
  {
    s != "" && forall i :: 0 <= i < |s| ==> !IsSeparator(s[i])
  }

  lemma {:induction false} HeadOf(a: string, b: string)
    requires forall i :: 0 <= i < |a| ==> !IsSeparator(a[i])
    requires b == "" || IsSeparator(b[0])
    ensures Head(a + b) == a
  {
    if a != "" {
      assert (a + b)[1..] == a[1..] + b;
      HeadOf(a[1..], b);
    } else {
      assert a + b == b;
    }
  }

  lemma SegmentsOfHead(a: string, b: string)
    requires IsSegment(a) && (b == "" || IsSeparator(b[0]))
    ensures Segments(a + b) == [a] + Segments(b)
  {
    HeadOf(a, b);
    assert (a + b)[|a|..] == b;
  }

  lemma {:induction false} SegmentsOfJoin(segs: seq<string>, separators: seq<char>)
    requires |segs| <= |separators| + 1
    requires forall i :: 0 <= i < |segs| ==> IsSegment(segs[i])
    requires forall i :: 0 <= i < |separators| ==> IsSeparator(separators[i])
    ensures Segments(Join(segs, separators)) == segs
    decreases |segs|
  {
    if |segs| == 1 {
      SegmentsOfHead(segs[0], "");
      assert segs[0] + "" == segs[0];
    } else if |segs| > 1 {
      var rest := Join(segs[1..], separators[1..]);
      var b := [separators[0]] + rest;
      assert Join(segs, separators) == segs[0] + b;
      SegmentsOfHead(segs[0], b);
      assert b[1..] == rest;
      SegmentsOfJoin(segs[1..], separators[1..]);
    }
  }

  const INT_MAX := 0x7FFF_FFFF

  // A segment for element i of record x: its position in brackets, or, in a group, its
  // name if no sibling before it has the same one.
  ghost predicate Spells(ns: seq<Node>, x: nat, i: nat, seg: string)
    requires Sound(ns) && x < |ns|
  {
    KidsInStore(ns, x);
    assert forall j :: 0 <= j < |ns[x].kids| ==> ns[x].kids[j] in ns[x].kids;
    && i < |ns[x].kids|
    && var y := ns[x].kids[i];
       if seg != "" && seg[0] == '[' then i <= INT_MAX && seg == "[" + Decimal(i) + "]"
       else
         && ns[x].kind == GroupKind && ns[y].name == Some(seg) && ValidName(seg)
         && forall j :: 0 <= j < i ==> ns[ns[x].kids[j]].name != Some(seg)
  }

  // The record at a position below x: an element of it, an element of that, and so on.
  ghost function At(ns: seq<Node>, x: nat, position: seq<nat>): (r: Option<nat>)
    requires Sound(ns) && x < |ns|
    ensures r.Some? ==> r.value < |ns|
    decreases |position|
  {
    KidsInStore(ns, x);
    assert forall j :: 0 <= j < |ns[x].kids| ==> ns[x].kids[j] in ns[x].kids;
    if position == [] then Some(x)
    else if position[0] < |ns[x].kids| then At(ns, ns[x].kids[position[0]], position[1..])
    else None
  }

  // The segments spell the position below x.
  ghost predicate SpellsAll(ns: seq<Node>, x: nat, position: seq<nat>, segs: seq<string>)
    requires Sound(ns) && x < |ns|
    decreases |position|
  {
    KidsInStore(ns, x);
    assert forall j :: 0 <= j < |ns[x].kids| ==> ns[x].kids[j] in ns[x].kids;
    if position == [] || segs == [] then position == [] && segs == []
    else Spells(ns, x, position[0], segs[0]) && SpellsAll(ns, ns[x].kids[position[0]], position[1..], segs[1..])
  }

  lemma {:induction false} DigitsConcat(a: string, t: string, value: nat)
    requires forall i :: 0 <= i < |a| ==> IsDigit(a[i])
    ensures Digits(a + t, value) == Digits(t, Digits(a, value))
  {
    if a == "" {
      assert a + t == t;
    } else {
      assert (a + t)[1..] == a[1..] + t;
      DigitsConcat(a[1..], t, value * 10 + DigitValue(a[0]));
    }
  }

  lemma {:induction false} DigitsOfDecimal(n: nat)
    ensures Digits(Decimal(n), 0) == n
  {
    var d := ('0' as int + n % 10) as char;
    assert [d][1..] == "";
    if n >= 10 {
      DigitsOfDecimal(n / 10);
      DigitsConcat(Decimal(n / 10), [d], 0);
      assert Digits([d], n / 10) == Digits("", n / 10 * 10 + n % 10);
    }
  }

  // atoi stops at the closing bracket.
  lemma AtoiOfDecimal(n: nat)
    ensures Atoi(Decimal(n) + "]") == n
  {
    DigitsConcat(Decimal(n), "]", 0);
    DigitsOfDecimal(n);
    assert IsDigit((Decimal(n) + "]")[0]);
  }

  // ---------- Looking up what was built ----------

  // Among distinct records, the first with a name is found by that name.
  lemma {:induction false} FirstNamedFinds(ns: seq<Node>, ks: seq<nat>, i: nat, name: string)
    requires i < |ks| && forall j :: 0 <= j < |ks| ==> ks[j] < |ns|
    requires ns[ks[i]].name.Some? && Head(ns[ks[i]].name.value) == Head(name)
    requires forall j :: 0 <= j < i ==> ns[ks[j]].name.Some? ==> Head(ns[ks[j]].name.value) != Head(name)
    ensures FirstNamed(ns, ks, name) == Some(ks[i])
  {
    assert ks[0] in ks && forall k | k in ks[1..] :: k in ks;
    if i > 0 {
      assert ns[ks[0]].name.Some? ==> Head(ns[ks[0]].name.value) != Head(name);
      forall j | 0 <= j < i - 1
        ensures ns[ks[1..][j]].name.Some? ==> Head(ns[ks[1..][j]].name.value) != Head(name)
      {
        assert ks[1..][j] == ks[j + 1] && ns[ks[j + 1]].name.Some? ==> Head(ns[ks[j + 1]].name.value) != Head(name);
      }
      FirstNamedFinds(ns, ks[1..], i - 1, name);
    }
  }

  lemma ValidNameHead(name: string)
    requires ValidName(name)
    ensures IsSegment(name) && Head(name) == name && name[0] != '['
  {
    forall i | 0 <= i < |name|
      ensures !IsSeparator(name[i])
    {
      var c := name[i];
      assert i == 0 ==> IsAlnum(c) || c == '*';
    }
    HeadOf(name, "");
    assert name + "" == name;
  }

  // The names in a store that has been built through the library are valid.
  ghost predicate NamesValid(ns: seq<Node>)
  {
    forall i :: 0 <= i < |ns| && ns[i].name.Some? ==> ValidName(ns[i].name.value)
  }

  lemma SpellsIsFollowed(ns: seq<Node>, x: nat, i: nat, seg: string)
    requires Sound(ns) && NamesValid(ns) && x < |ns| && Spells(ns, x, i, seg)
    ensures IsSegment(seg) && Follow(ns, x, seg) == Some(ns[x].kids[i])
  {
    assert NodeOk(ns, x);
    KidsInStore(ns, x);
    if seg != "" && seg[0] == '[' {
      assert seg[1..] == Decimal(i) + "]";
      AtoiOfDecimal(i);
    } else {
      ValidNameHead(seg);
      var ks := ns[x].kids;
      forall j | 0 <= j < i
        ensures ns[ks[j]].name.Some? ==> Head(ns[ks[j]].name.value) != Head(seg)
      {
        if ns[ks[j]].name.Some? {
          assert ks[j] in ks;
          ValidNameHead(ns[ks[j]].name.value);
        }
      }
      FirstNamedFinds(ns, ks, i, seg);
    }
  }

  lemma {:induction false} SpellsAllDescends(ns: seq<Node>, x: nat, position: seq<nat>, segs: seq<string>)
    requires Sound(ns) && NamesValid(ns) && x < |ns| && SpellsAll(ns, x, position, segs)
    ensures At(ns, x, position).Some? && Descend(ns, x, segs) == At(ns, x, position)
    ensures forall i :: 0 <= i < |segs| ==> IsSegment(segs[i])
    decreases |position|
  {
    if position != [] {
      KidsInStore(ns, x);
      SpellsIsFollowed(ns, x, position[0], segs[0]);
      SpellsAllDescends(ns, ns[x].kids[position[0]], position[1..], segs[1..]);
    }
  }

  // Looking up a path built for a position gives the record at that position.
  lemma PathRoundTrip(ns: seq<Node>, x: nat, position: seq<nat>, segs: seq<string>, separators: seq<char>)
    requires Sound(ns) && NamesValid(ns) && x < |ns| && SpellsAll(ns, x, position, segs)
    requires |segs| <= |separators| + 1
    requires forall i :: 0 <= i < |separators| ==> separators[i] == ':' || separators[i] == '/'
    ensures At(ns, x, position).Some? && Found(ns, x, Join(segs, separators)) == At(ns, x, position)
  {
    SpellsAllDescends(ns, x, position, segs);
    SegmentsOfJoin(segs, separators);
  }

  // A name leads to its own record exactly if no sibling before it has the same name.
  lemma NameFindsFirst(ns: seq<Node>, x: nat, i: nat)
    requires Sound(ns) && NamesValid(ns) && x < |ns| && ns[x].kind == GroupKind && i < |ns[x].kids|
    requires ns[x].kids[i] < |ns| && ns[ns[x].kids[i]].name.Some?
    ensures forall j :: 0 <= j < i ==> ns[x].kids[j] < |ns|
    ensures var name := ns[ns[x].kids[i]].name;
      Follow(ns, x, name.value) == Some(ns[x].kids[i]) <==>
      forall j {:trigger ns[x].kids[j]} :: 0 <= j < i ==> ns[ns[x].kids[j]].name != name
  {
    assert NodeOk(ns, x);
    KidsInStore(ns, x);
    var name := ns[ns[x].kids[i]].name.value;
    ValidNameHead(name);
    if j :| 0 <= j < i && ns[ns[x].kids[j]].name == Some(name) {
      var m := FirstWithName(ns, x, j, name);
      assert Spells(ns, x, m, name);
      SpellsIsFollowed(ns, x, m, name);
      assert ns[x].kids[m] != ns[x].kids[i];
    } else {
      assert Spells(ns, x, i, name);
      SpellsIsFollowed(ns, x, i, name);
    }
  }

  lemma {:induction false} FirstWithName(ns: seq<Node>, x: nat, j: nat, name: string) returns (m: nat)
    requires Sound(ns) && x < |ns| && j < |ns[x].kids| && ns[x].kids[j] < |ns|
    requires ns[ns[x].kids[j]].name == Some(name)
    ensures m <= j && ns[x].kids[m] < |ns| && ns[ns[x].kids[m]].name == Some(name)
    ensures forall k {:trigger ns[x].kids[k]} :: 0 <= k < m ==>
      ns[x].kids[k] < |ns| && ns[ns[x].kids[k]].name != Some(name)
    decreases j
  {
    assert NodeOk(ns, x);
    m := j;
    if k :| 0 <= k < j && ns[ns[x].kids[k]].name == Some(name) {
      m := FirstWithName(ns, x, k, name);
    }
  }

  // Every position has a path: the elements' positions in brackets.
  lemma {:induction false} EveryPositionIsSpelled(ns: seq<Node>, x: nat, position: seq<nat>) returns (segs: seq<string>)
    requires Sound(ns) && x < |ns| && At(ns, x, position).Some?
    requires forall i :: 0 <= i < |position| ==> position[i] <= 0x7FFF_FFFF
    ensures SpellsAll(ns, x, position, segs)
    decreases |position|
  {
    if position == [] {
      segs := [];
    } else {
      KidsInStore(ns, x);
      assert ns[x].kids[position[0]] in ns[x].kids;
      var rest := EveryPositionIsSpelled(ns, ns[x].kids[position[0]], position[1..]);
      segs := ["[" + Decimal(position[0]) + "]"] + rest;
      assert segs[1..] == rest;
    }
  }
}
