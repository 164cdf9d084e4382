// Settings in memory: a store of linked records, and the tree and the open frames that a
// position in it stands for.
module Arena {
  import opened Settings
  import opened Parser

  // A record: its name and type, its scalar value if it has one, the record it belongs to,
  // and the records in its list. Records refer to each other by position in the store.
  datatype Node = Node(name: Option<string>, kind: Kind, payload: Value, parent: Option<nat>, kids: seq<nat>)

  predicate IsContainer(k: Kind)
  {
    k == GroupKind || k == ArrayKind || k == ListKind
  }

  function ContainerOf(k: Kind): Container
    requires IsContainer(k)
  {
    if k == GroupKind then InGroup else if k == ArrayKind then InArray else InList
  }

  function KindOfContainer(c: Container): Kind
  {
    if c == InGroup then GroupKind else if c == InArray then ArrayKind else ListKind
  }

  // Record i comes after its parent, and its list holds later records that belong to it,
  // each once.
  ghost predicate NodeOk(ns: seq<Node>, i: int)
  {
    0 <= i < |ns| ==>
      && (ns[i].parent.Some? ==> ns[i].parent.value < i)
      && (forall j {:trigger ns[i].kids[j]} :: 0 <= j < |ns[i].kids| ==>
            i < ns[i].kids[j] < |ns| && ns[ns[i].kids[j]].parent == Some(i))
      && (forall j, k :: 0 <= j < k < |ns[i].kids| ==> ns[i].kids[j] != ns[i].kids[k])
      && (ns[i].kids != [] ==> IsContainer(ns[i].kind))
      && (!IsContainer(ns[i].kind) ==> KindOf(ns[i].payload) == ns[i].kind)
  }

  ghost predicate Sound(ns: seq<Node>)
  {
    forall i :: NodeOk(ns, i)
  }

  // The setting that record i stands for.
  ghost function Tree(ns: seq<Node>, i: nat): Setting
    requires Sound(ns) && i < |ns|
    decreases |ns| - i, 1, 0
  {
    assert NodeOk(ns, i);
    Setting(ns[i].name,
            if IsContainer(ns[i].kind) then Contain(ContainerOf(ns[i].kind), Trees(ns, i, ns[i].kids))
            else ns[i].payload)
  }

  ghost function Trees(ns: seq<Node>, i: nat, ks: seq<nat>): seq<Setting>
    requires Sound(ns) && i < |ns| && forall k | k in ks :: i < k < |ns|
    decreases |ns| - i, 0, |ks|
  {
    if ks == [] then []
    else
      assert ks[0] in ks && forall k | k in ks[1..] :: k in ks;
      [Tree(ns, ks[0])] + Trees(ns, i, ks[1..])
  }

  lemma {:induction false} TreesSnoc(ns: seq<Node>, i: nat, ks: seq<nat>, k: nat)
    requires Sound(ns) && i < |ns| && i < k < |ns| && forall j | j in ks :: i < j < |ns|
    ensures Trees(ns, i, ks + [k]) == Trees(ns, i, ks) + [Tree(ns, k)]
    decreases |ks|
  {
    if ks == [] {
      assert ks + [k] == [k] && [k][1..] == [];
    } else {
      assert ks[0] in ks && forall j | j in ks[1..] :: j in ks;
      TreesSnoc(ns, i, ks[1..], k);
      assert (ks + [k])[1..] == ks[1..] + [k];
    }
  }

  // ---------- Ancestors ----------

  // c is p, or p's parent, or its parent, and so on.
  ghost predicate Ancestor(ns: seq<Node>, c: nat, p: nat)
    requires Sound(ns) && p < |ns|
    decreases p
  {
    assert NodeOk(ns, p);
    c == p || (ns[p].parent.Some? && Ancestor(ns, c, ns[p].parent.value))
  }

  lemma {:induction false} AncestorBound(ns: seq<Node>, c: nat, p: nat)
    requires Sound(ns) && p < |ns| && Ancestor(ns, c, p)
    ensures c <= p
    decreases p
  {
    assert NodeOk(ns, p);
    if c != p {
      AncestorBound(ns, c, ns[p].parent.value);
    }
  }

  lemma {:induction false} AncestorParent(ns: seq<Node>, c: nat, p: nat)
    requires Sound(ns) && c < |ns| && p < |ns| && Ancestor(ns, c, p) && ns[c].parent.Some?
    ensures Ancestor(ns, ns[c].parent.value, p)
    decreases p
  {
    assert NodeOk(ns, p);
    if c == p {
      assert Ancestor(ns, ns[p].parent.value, ns[p].parent.value);
    } else {
      AncestorParent(ns, c, ns[p].parent.value);
    }
  }

  // Of the records in one list, at most one is an ancestor of p.
  lemma {:induction false} OneAncestor(ns: seq<Node>, c: nat, x: nat, p: nat)
    requires Sound(ns) && c < |ns| && x < |ns| && p < |ns|
    requires Ancestor(ns, c, p) && Ancestor(ns, x, p)
    requires ns[c].parent.Some? && ns[c].parent == ns[x].parent
    ensures c == x
    decreases p
  {
    assert NodeOk(ns, p) && NodeOk(ns, c) && NodeOk(ns, x);
    if c == p && x != p {
      AncestorBound(ns, x, ns[p].parent.value);
    } else if x == p && c != p {
      AncestorBound(ns, c, ns[p].parent.value);
    } else if c != p {
      OneAncestor(ns, c, x, ns[p].parent.value);
    }
  }

  // ---------- What a change leaves alone ----------

  // ms is ns with record p changed, its parent link kept, and records added at the end.
  ghost predicate ChangedAt(ns: seq<Node>, ms: seq<Node>, p: nat)
  {
    && p < |ns| <= |ms| && ms[p].parent == ns[p].parent
    && forall i :: 0 <= i < |ns| && i != p ==> ms[i] == ns[i]
  }

  // A record that is not p and does not contain p stands for the same setting afterwards.
  lemma {:induction false} TreeUnchanged(ns: seq<Node>, ms: seq<Node>, p: nat, c: nat)
    requires Sound(ns) && Sound(ms) && ChangedAt(ns, ms, p) && c < |ns| && !Ancestor(ns, c, p)
    ensures Tree(ms, c) == Tree(ns, c)
    decreases |ns| - c, 1, 0
  {
    assert NodeOk(ns, c);
    assert c != p;
    assert ms[c] == ns[c];
    if IsContainer(ns[c].kind) {
      forall k | k in ns[c].kids
        ensures !Ancestor(ns, k, p)
      {
        assert ns[k].parent == Some(c);
        if Ancestor(ns, k, p) {
          AncestorParent(ns, k, p);
        }
      }
      TreesUnchanged(ns, ms, p, c, ns[c].kids);
    }
  }

  lemma {:induction false} TreesUnchanged(ns: seq<Node>, ms: seq<Node>, p: nat, i: nat, ks: seq<nat>)
    requires Sound(ns) && Sound(ms) && ChangedAt(ns, ms, p) && i < |ns|
    requires forall k | k in ks :: i < k < |ns| && !Ancestor(ns, k, p)
    ensures Trees(ms, i, ks) == Trees(ns, i, ks)
    decreases |ns| - i, 0, |ks|
  {
    if ks != [] {
      assert ks[0] in ks && forall k | k in ks[1..] :: k in ks;
      TreeUnchanged(ns, ms, p, ks[0]);
      TreesUnchanged(ns, ms, p, i, ks[1..]);
    }
  }

  // ---------- The open frames ----------

  // p is open: it and the records it belongs to are containers, each the last in the list
  // of the next.
  ghost predicate Spine(ns: seq<Node>, p: nat)
    requires Sound(ns) && p < |ns|
    decreases p
  {
    assert NodeOk(ns, p);
    && IsContainer(ns[p].kind)
    && (if ns[p].parent.None? then p == 0
        else var q := ns[p].parent.value; ns[q].kids != [] && Last(ns[q].kids) == p && Spine(ns, q))
  }

  function Last(ks: seq<nat>): nat
    requires ks != []
  {
    ks[|ks| - 1]
  }

  function Front(ks: seq<nat>): seq<nat>
    requires ks != []
  {
    ks[..|ks| - 1]
  }

  // The frame of record p with the given part of its list.
  ghost function FrameOf(ns: seq<Node>, p: nat, ks: seq<nat>): Frame
    requires Sound(ns) && p < |ns| && IsContainer(ns[p].kind) && forall k | k in ks :: p < k < |ns|
  {
    Frame(ns[p].name, ContainerOf(ns[p].kind), Trees(ns, p, ks))
  }

  // The frames outside record p, with p itself left out of the list it is last in.
  ghost function Outer(ns: seq<Node>, p: nat): seq<Frame>
    requires Sound(ns) && p < |ns| && Spine(ns, p)
    decreases p
  {
    assert NodeOk(ns, p);
    if ns[p].parent.None? then []
    else
      var q := ns[p].parent.value;
      assert NodeOk(ns, q);
      Outer(ns, q) + [FrameOf(ns, q, Front(ns[q].kids))]
  }

  // Changing an open record, or one below it that is not listed yet, keeps the spine and
  // the frames outside it.
  lemma {:induction false} OuterUnchanged(ns: seq<Node>, ms: seq<Node>, p: nat, x: nat)
    requires Sound(ns) && Sound(ms) && ChangedAt(ns, ms, p) && x < |ns|
    requires Spine(ns, x) && Ancestor(ns, x, p) && IsContainer(ms[x].kind)
    ensures Spine(ms, x) && Outer(ms, x) == Outer(ns, x)
    decreases x
  {
    assert NodeOk(ns, x) && NodeOk(ms, x);
    assert ms[x].parent == ns[x].parent;
    if ns[x].parent.Some? {
      var q := ns[x].parent.value;
      assert NodeOk(ns, q) && NodeOk(ms, q);
      AncestorParent(ns, x, p);
      AncestorBound(ns, x, p);
      assert ms[q] == ns[q];
      OuterUnchanged(ns, ms, p, q);
      SiblingsUnchanged(ns, ms, p, x);
    }
  }

  lemma SiblingsUnchanged(ns: seq<Node>, ms: seq<Node>, p: nat, x: nat)
    requires Sound(ns) && Sound(ms) && ChangedAt(ns, ms, p) && x < |ns| && Ancestor(ns, x, p)
    requires ns[x].parent.Some? && ns[x].parent.value < |ns|
    requires var q := ns[x].parent.value; ns[q].kids != [] && Last(ns[q].kids) == x
    ensures var q := ns[x].parent.value; var ks := Front(ns[q].kids);
      && (forall k | k in ks :: q < k < |ns|)
      && Trees(ms, q, ks) == Trees(ns, q, ks)
  {
    var q := ns[x].parent.value;
    assert NodeOk(ns, q);
    var ks := Front(ns[q].kids);
    forall k | k in ks
      ensures q < k < |ns| && !Ancestor(ns, k, p)
    {
      var j :| 0 <= j < |ks| && ks[j] == k;
      assert ns[q].kids[j] == k && ns[k].parent == Some(q);
      if Ancestor(ns, k, p) {
        OneAncestor(ns, k, x, p);
      }
    }
    TreesUnchanged(ns, ms, p, q, ks);
  }

  // ---------- The changes the parser makes ----------

  // A new record at the end of the store, in the list of p.
  function Appended(ns: seq<Node>, p: nat, name: Option<string>, kind: Kind, payload: Value): seq<Node>
    requires p < |ns|
  {
    ns[p := ns[p].(kids := ns[p].kids + [|ns|])] + [Node(name, kind, payload, Some(p), [])]
  }

  ghost predicate FitsKind(kind: Kind, payload: Value)
  {
    !IsContainer(kind) ==> KindOf(payload) == kind
  }

  lemma AppendedSound(ns: seq<Node>, p: nat, name: Option<string>, kind: Kind, payload: Value)
    requires Sound(ns) && p < |ns| && IsContainer(ns[p].kind) && FitsKind(kind, payload)
    ensures Sound(Appended(ns, p, name, kind, payload))
    ensures ChangedAt(ns, Appended(ns, p, name, kind, payload), p)
  {
    var ms := Appended(ns, p, name, kind, payload);
    forall i
      ensures NodeOk(ms, i)
    {
      assert NodeOk(ns, i);
      assert NodeOk(ns, p);
    }
  }

  // Appending leaves the open frames as they were; the new record is last in its list.
  lemma AppendedFrames(ns: seq<Node>, p: nat, name: Option<string>, kind: Kind, payload: Value)
    requires Sound(ns) && p < |ns| && Spine(ns, p) && FitsKind(kind, payload)
    ensures var ms := Appended(ns, p, name, kind, payload); var n := |ns|;
      && Sound(ms) && Spine(ms, p) && Outer(ms, p) == Outer(ns, p)
      && ms[p].kids != [] && Last(ms[p].kids) == n && Front(ms[p].kids) == ns[p].kids
      && (forall k | k in ns[p].kids :: p < k < |ns|)
      && FrameOf(ms, p, ns[p].kids) == FrameOf(ns, p, ns[p].kids)
      && (forall k | k in ms[p].kids :: p < k < |ms|)
      && FrameOf(ms, p, ms[p].kids).kids == Trees(ns, p, ns[p].kids) + [Tree(ms, n)]
  {
    var ms := Appended(ns, p, name, kind, payload);
    AppendedSound(ns, p, name, kind, payload);
    OuterUnchanged(ns, ms, p, p);
    KidsUnchanged(ns, ms, p, p, ns[p].kids);
    assert NodeOk(ms, p) && NodeOk(ns, p);
    assert ms[p].kids == ns[p].kids + [|ns|];
    TreesSnoc(ms, p, ns[p].kids, |ns|);
  }

  // Appending a scalar adds it to the children of the innermost open frame.
  lemma AppendedScalar(ns: seq<Node>, p: nat, v: Value)
    requires Sound(ns) && p < |ns| && Spine(ns, p) && IsScalar(v)
    ensures var ms := Appended(ns, p, None, KindOf(v), v); var n := |ns|;
      && Sound(ms) && Spine(ms, p) && ms[n].kind != NoneKind
      && (forall k | k in ns[p].kids :: p < k < |ns|) && (forall k | k in ms[p].kids :: p < k < |ms|)
      && Outer(ms, p) == Outer(ns, p)
      && var f := FrameOf(ns, p, ns[p].kids);
         FrameOf(ms, p, ms[p].kids) == f.(kids := f.kids + [Setting(None, v)])
  {
    var k := KindOf(v);
    AppendedFrames(ns, p, None, k, v);
    AppendedTree(ns, p, k, v);
    var ms := Appended(ns, p, None, k, v);
    assert ms[|ns|].kind == k;
    var f, g := FrameOf(ns, p, ns[p].kids), FrameOf(ms, p, ms[p].kids);
    assert g.name == f.name && g.container == f.container && g.kids == f.kids + [Setting(None, v)];
  }

  lemma AppendedTree(ns: seq<Node>, p: nat, kind: Kind, payload: Value)
    requires p < |ns| && !IsContainer(kind) && Sound(Appended(ns, p, None, kind, payload))
    ensures Tree(Appended(ns, p, None, kind, payload), |ns|) == Setting(None, payload)
  {
  }

  // Records listed in p are not ancestors of p or of the last of them.
  lemma KidsUnchanged(ns: seq<Node>, ms: seq<Node>, p: nat, x: nat, ks: seq<nat>)
    requires Sound(ns) && Sound(ms) && p < |ns| && ChangedAt(ns, ms, x)
    requires (x == p && ks == ns[p].kids) || (ns[p].kids != [] && x == Last(ns[p].kids) && ks == Front(ns[p].kids))
    ensures (forall k | k in ks :: p < k < |ns|)
    ensures Trees(ms, p, ks) == Trees(ns, p, ks)
  {
    assert NodeOk(ns, p);
    forall k | k in ks
      ensures p < k < |ns| && !Ancestor(ns, k, x)
    {
      var j :| 0 <= j < |ks| && ks[j] == k;
      assert ns[p].kids[j] == k && ns[k].parent == Some(p);
      if Ancestor(ns, k, x) {
        if x == p {
          AncestorBound(ns, k, p);
        } else {
          assert ns[p].kids[|ns[p].kids| - 1] == x && ns[x].parent == Some(p);
          OneAncestor(ns, k, x, x);
        }
      }
    }
    TreesUnchanged(ns, ms, x, p, ks);
  }

  // Giving a record that holds no others a type and a value.
  function Typed(ns: seq<Node>, x: nat, kind: Kind, payload: Value): seq<Node>
    requires x < |ns|
  {
    ns[x := ns[x].(kind := kind, payload := payload)]
  }

  lemma TypedSound(ns: seq<Node>, x: nat, kind: Kind, payload: Value)
    requires Sound(ns) && x < |ns| && !IsContainer(ns[x].kind) && FitsKind(kind, payload)
    ensures Sound(Typed(ns, x, kind, payload)) && ChangedAt(ns, Typed(ns, x, kind, payload), x)
    ensures ns[x].kids == []
  {
    var ms := Typed(ns, x, kind, payload);
    assert NodeOk(ns, x);
    forall i
      ensures NodeOk(ms, i)
    {
      assert NodeOk(ns, i);
    }
  }

  // Typing the last record in the list of the open record p leaves the open frames alone.
  lemma TypedFrames(ns: seq<Node>, p: nat, x: nat, kind: Kind, payload: Value)
    requires Sound(ns) && p < |ns| && Spine(ns, p) && ns[p].kids != [] && x == Last(ns[p].kids)
    requires x < |ns| && !IsContainer(ns[x].kind) && FitsKind(kind, payload)
    ensures var ms := Typed(ns, x, kind, payload);
      && Sound(ms) && p < x && ms[p] == ns[p] && ns[x].parent == Some(p) && ms[x].kids == []
      && Spine(ms, p) && Outer(ms, p) == Outer(ns, p)
      && (forall k | k in Front(ns[p].kids) :: p < k < |ns|)
      && (forall k | k in ns[p].kids :: p < k < |ns|)
      && FrameOf(ms, p, Front(ns[p].kids)) == FrameOf(ns, p, Front(ns[p].kids))
      && FrameOf(ms, p, ns[p].kids).kids == Trees(ns, p, Front(ns[p].kids)) + [Tree(ms, x)]
  {
    var ms := Typed(ns, x, kind, payload);
    TypedSound(ns, x, kind, payload);
    assert NodeOk(ns, p) && NodeOk(ns, x);
    assert ns[p].kids[|ns[p].kids| - 1] == x;
    assert Ancestor(ns, p, p);
    assert Ancestor(ns, p, x);
    OuterUnchanged(ns, ms, x, p);
    KidsUnchanged(ns, ms, p, x, Front(ns[p].kids));
    TreesSnoc(ms, p, Front(ns[p].kids), x);
    assert Front(ns[p].kids) + [x] == ns[p].kids;
  }

  // A container that is last in the list of an open record can be opened.
  lemma OpenLast(ns: seq<Node>, p: nat, x: nat)
    requires Sound(ns) && p < |ns| && Spine(ns, p) && ns[p].kids != [] && x == Last(ns[p].kids)
    requires x < |ns| && IsContainer(ns[x].kind) && ns[x].kids == []
    ensures Spine(ns, x) && forall k | k in Front(ns[p].kids) :: p < k < |ns|
    ensures Outer(ns, x) == Outer(ns, p) + [FrameOf(ns, p, Front(ns[p].kids))]
    ensures FrameOf(ns, x, []) == Frame(ns[x].name, ContainerOf(ns[x].kind), [])
  {
    assert NodeOk(ns, p) && NodeOk(ns, x);
    assert ns[p].kids[|ns[p].kids| - 1] == x;
  }

  // Closing an open record: its parent is open, with the record as its last child.
  lemma CloseLast(ns: seq<Node>, p: nat)
    requires Sound(ns) && p < |ns| && Spine(ns, p) && ns[p].parent.Some?
    ensures var q := ns[p].parent.value;
      && q < p && Spine(ns, q)
      && (forall k | k in ns[q].kids :: q < k < |ns|) && (forall k | k in ns[p].kids :: p < k < |ns|)
      && (forall k | k in Front(ns[q].kids) :: q < k < |ns|)
      && Outer(ns, p) == Outer(ns, q) + [FrameOf(ns, q, Front(ns[q].kids))]
      && FrameOf(ns, q, ns[q].kids).kids == Trees(ns, q, Front(ns[q].kids)) + [Tree(ns, p)]
      && Tree(ns, p) == Setting(ns[p].name, Contain(ContainerOf(ns[p].kind), FrameOf(ns, p, ns[p].kids).kids))
  {
    var q := ns[p].parent.value;
    assert NodeOk(ns, p) && NodeOk(ns, q);
    assert Front(ns[q].kids) + [p] == ns[q].kids;
    assert forall k | k in Front(ns[q].kids) :: k in ns[q].kids;
    TreesSnoc(ns, q, Front(ns[q].kids), p);
  }
}
