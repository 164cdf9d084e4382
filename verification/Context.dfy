// The parse context in memory: the functions of the library that build the setting tree
// in place, and the semantic actions that drive them.
module Context {
  import opened Settings
  import opened Parser
  import opened Arena
  import Names

  // The value of a record that has just been created.
  function Zero(k: Kind): (v: Value)
    ensures FitsKind(k, v)
  {
    match k
    case NoneKind => NoValue
    case IntKind => Int(0, Decimal)
    case Int64Kind => Int64(0, Decimal)
    case FloatKind => Float(0.0)
    case StringKind => String(None)
    case BoolKind => Bool(0)
    case GroupKind => NoValue
    case ArrayKind => NoValue
    case ListKind => NoValue
  }

  // The conversions of C between integers and floating-point numbers, whatever they are.
  datatype Casts = Casts(ofInt: int -> real, toInt: real -> int, toInt64: real -> int)

  function FormatOf(v: Value): Format
  {
    if v.Int? || v.Int64? then v.format else Decimal
  }

  // What a setting with this payload, of kind k, holds after it has been set to the scalar v,
  // if it takes it: any value if it has no type yet, a value of its own type, a 64-bit
  // integer if it has 32, or a number of the other sort if these are to be converted.
  function Taken(k: Kind, payload: Value, v: Value, auto: bool, casts: Casts): (r: Option<Value>)
    ensures r.Some? && k != NoneKind ==> KindOf(r.value) == k
  {
    if k == NoneKind || k == KindOf(v) then Some(v)
    else
      match v
      case Int(i, _) => if k == FloatKind && auto then Some(Float(casts.ofInt(i))) else None
      case Int64(i, f) =>
        if k == IntKind then Some(Int(if i > 0x7FFF_FFFF || i < -0x8000_0000 then 0 else i, f))
        else if k == FloatKind && auto then Some(Float(casts.ofInt(i)))
        else None
      case Float(x) =>
        if k == IntKind && auto then Some(Int(casts.toInt(x), FormatOf(payload)))
        else if k == Int64Kind && auto then Some(Int64(casts.toInt64(x), FormatOf(payload)))
        else None
      case _ => None
  }

  predicate IsNumber(k: Kind)
  {
    k == IntKind || k == Int64Kind || k == FloatKind
  }

  // When a setting takes a scalar: it has no type or the same one, it is to hold a 64-bit
  // integer in 32 bits, or an integer is to be converted to a floating-point number or back.
  lemma TakenWhen(k: Kind, payload: Value, v: Value, auto: bool, casts: Casts)
    requires IsScalar(v)
    ensures Taken(k, payload, v, auto, casts).Some? <==>
      || k == NoneKind || k == KindOf(v) || (v.Int64? && k == IntKind)
      || (auto && IsNumber(k) && IsNumber(KindOf(v)) && (k == FloatKind || v.Float?))
    ensures k == NoneKind || k == KindOf(v) ==> Taken(k, payload, v, auto, casts) == Some(v)
  {
  }

  // A 64-bit integer keeps its value and format in 32 bits if and only if it fits, and the
  // value is 0 otherwise. A number that is converted to an integer gets the format that the
  // setting had.
  lemma TakenInteger(payload: Value, i: int, f: Format, x: real, auto: bool, casts: Casts)
    ensures var r := Taken(IntKind, payload, Int64(i, f), auto, casts);
      && r.Some? && r.value.format == f && (r.value.int32 == i || r.value.int32 == 0)
      && (r.value == Int(i, f) <==> -0x8000_0000 <= i < 0x8000_0000)
    ensures payload.Int? && auto ==>
      Taken(IntKind, payload, Float(x), auto, casts) == Some(Int(casts.toInt(x), payload.format))
    ensures payload.Int64? && auto ==>
      Taken(Int64Kind, payload, Float(x), auto, casts) == Some(Int64(casts.toInt64(x), payload.format))
  {
  }

  class ParseContext {
    // CONFIG_OPTION_AUTOCONVERT
    const autoConvert: bool
    const casts: Casts
    var nodes: seq<Node>
    var parent: Option<nat>
    var setting: Option<nat>
    var text: Option<string>

    // The context setting has been named but has no type yet.
    ghost predicate Pending()
      reads this
    {
      setting.Some? && setting.value < |nodes| && nodes[setting.value].kind == NoneKind
    }

    ghost predicate Valid()
      reads this
    {
      && Sound(nodes)
      && parent.Some? && parent.value < |nodes| && Spine(nodes, parent.value)
      && (setting.Some? ==> setting.value < |nodes|)
      && (Pending() ==> nodes[parent.value].kids != [] && Last(nodes[parent.value].kids) == setting.value)
    }

    // The children of the parent that are complete.
    ghost function Complete(): (ks: seq<nat>)
      requires Valid()
      reads this
      ensures forall k | k in ks :: parent.value < k < |nodes|
    {
      assert NodeOk(nodes, parent.value);
      if Pending() then Front(nodes[parent.value].kids) else nodes[parent.value].kids
    }

    // What the context stands for: the open frames and the pending member.
    ghost function View(): Ctx
      requires Valid()
      reads this
    {
      Ctx(Outer(nodes, parent.value) + [FrameOf(nodes, parent.value, Complete())],
          if Pending() then Some(nodes[setting.value].name) else None,
          text)
    }

    // An empty configuration: the root group, which is both the parent and the setting.
    constructor (auto: bool, casts: Casts)
      ensures Valid() && View() == Start && autoConvert == auto && this.casts == casts
    {
      autoConvert, this.casts := auto, casts;
      nodes := [Node(None, GroupKind, NoValue, None, [])];
      parent, setting, text := Some(0), Some(0), None;
      new;
      assert forall i :: NodeOk(nodes, i);
    }

    // ---------- The library ----------

    // config_setting_create
    method Create(p: nat, name: Option<string>, kind: Kind) returns (r: Option<nat>)
      requires p < |nodes|
      modifies this`nodes
      ensures if IsContainer(old(nodes)[p].kind) then
          r == Some(|old(nodes)|) && nodes == Appended(old(nodes), p, name, kind, Zero(kind))
        else r == None && nodes == old(nodes)
    {
      if !IsContainer(nodes[p].kind) {
        return None;
      }
      r := Some(|nodes|);
      nodes := nodes + [Node(name, kind, Zero(kind), Some(p), [])];
      nodes := nodes[p := nodes[p].(kids := nodes[p].kids + [|nodes| - 1])];
    }

    // config_setting_add: elements are never named, and a name must be valid.
    method Add(p: Option<nat>, name: Option<string>, kind: Kind) returns (r: Option<nat>)
      requires p.Some? ==> p.value < |nodes|
      modifies this`nodes
      ensures r.Some? <==>
        && p.Some? && IsContainer(old(nodes)[p.value].kind)
        && (old(nodes)[p.value].kind == GroupKind && name.Some? ==> ValidName(name.value))
      ensures p.Some? && old(nodes)[p.value].kind == GroupKind && name.Some? && Names.IsLexeme(name.value) ==> r.Some?
      ensures r.None? ==> nodes == old(nodes)
      ensures r.Some? ==>
        && r.value == |old(nodes)|
        && nodes == Appended(old(nodes), p.value, if old(nodes)[p.value].kind == GroupKind then name else None,
                             kind, Zero(kind))
    {
      if p == None {
        return None;
      }
      var named := name;
      if nodes[p.value].kind == ArrayKind || nodes[p.value].kind == ListKind {
        named := None;
      }
      if named.Some? {
        Names.LexemesAreValid(named.value);
        if !ValidName(named.value) {
          return None;
        }
      }
      r := Create(p.value, named, kind);
    }

    // config_setting_set_*, and config_setting_set_format for the format of an integer.
    method SetScalar(x: nat, v: Value) returns (ok: bool)
      requires x < |nodes| && IsScalar(v)
      modifies this`nodes
      ensures var taken := Taken(old(nodes)[x].kind, old(nodes)[x].payload, v, autoConvert, casts);
        && ok == taken.Some?
        && nodes == if ok then Typed(old(nodes), x, KindOf(taken.value), taken.value) else old(nodes)
    {
      var kind := nodes[x].kind;
      if kind == NoneKind {
        nodes := nodes[x := nodes[x].(kind := KindOf(v))];
        kind := KindOf(v);
      }
      var payload := v;
      if kind != KindOf(v) {
        if v.Int64? && kind == IntKind {
          var small := v.int64 <= 0x7FFF_FFFF && v.int64 >= -0x8000_0000;
          payload := Int(if small then v.int64 else 0, v.format);
        } else if v.Int? && kind == FloatKind && autoConvert {
          payload := Float(casts.ofInt(v.int32));
        } else if v.Int64? && kind == FloatKind && autoConvert {
          payload := Float(casts.ofInt(v.int64));
        } else if v.Float? && kind == IntKind && autoConvert {
          payload := Int(casts.toInt(v.number), FormatOf(nodes[x].payload));
        } else if v.Float? && kind == Int64Kind && autoConvert {
          payload := Int64(casts.toInt64(v.number), FormatOf(nodes[x].payload));
        } else {
          return false;
        }
      }
      nodes := nodes[x := nodes[x].(payload := payload)];
      ok := true;
    }

    // __config_vector_checktype
    method CheckType(p: nat, k: Kind) returns (ok: bool)
      requires Sound(nodes) && p < |nodes|
      ensures ok <==> nodes[p].kids == [] || nodes[p].kind == ListKind || KindAt(nodes, nodes[p].kids[0]) == k
    {
      if nodes[p].kids == [] {
        return true;
      }
      if nodes[p].kind == ListKind {
        return true;
      }
      assert NodeOk(nodes, p) && nodes[p].kids[0] < |nodes|;
      ok := nodes[nodes[p].kids[0]].kind == k;
    }

    // config_setting_set_*_elem: sets the element at the index, or adds one if that is
    // negative.
    method SetElement(p: nat, idx: int, v: Value) returns (r: Option<nat>)
      requires Sound(nodes) && p < |nodes| && IsScalar(v)
      modifies this`nodes
      ensures r.None? ==> nodes == old(nodes)
      ensures idx < 0 ==>
        && (r.Some? <==>
             || old(nodes)[p].kind == ListKind
             || (old(nodes)[p].kind == ArrayKind
                 && (old(nodes)[p].kids == [] || KindAt(old(nodes), old(nodes)[p].kids[0]) == KindOf(v))))
        && (r.Some? ==> nodes == Appended(old(nodes), p, None, KindOf(v), v))
      ensures idx >= 0 ==>
        && (r.Some? <==>
             && (old(nodes)[p].kind == ArrayKind || old(nodes)[p].kind == ListKind) && idx < |old(nodes)[p].kids|
             && old(ElementTaken(p, idx, v)).Some?)
        && (r.Some? ==>
             && r.value == old(nodes)[p].kids[idx] < |old(nodes)|
             && nodes == Typed(old(nodes), r.value, KindOf(old(ElementTaken(p, idx, v)).value),
                               old(ElementTaken(p, idx, v)).value))
    {
      if nodes[p].kind != ArrayKind && nodes[p].kind != ListKind {
        return None;
      }
      var x;
      if idx < 0 {
        var ok := CheckType(p, KindOf(v));
        if !ok {
          return None;
        }
        var new_ := Create(p, None, KindOf(v));
        x := new_.value;
      } else {
        if idx >= |nodes[p].kids| {
          return None;
        }
        x := nodes[p].kids[idx];
        assert NodeOk(nodes, p);
      }
      var stored := SetScalar(x, v);
      r := if stored then Some(x) else None;
    }

    // What the element at the index holds after it has been set.
    ghost function ElementTaken(p: nat, idx: int, v: Value): Option<Value>
      requires Sound(nodes) && p < |nodes|
      reads this
    {
      if 0 <= idx < |nodes[p].kids| then
        assert NodeOk(nodes, p);
        var x := nodes[p].kids[idx];
        Taken(nodes[x].kind, nodes[x].payload, v, autoConvert, casts)
      else None
    }

    // ---------- The semantic actions ----------

    // A member is named.
    method ActName(name: string) returns (ok: bool)
      requires Valid() && !Pending()
      modifies this
      ensures var e := AddNamed(old(View()), name);
        ok == e.Proceed? && (ok ==> Valid() && View() == e.ctx)
    {
      hide Outer, Trees, Tree, ValidName;
      ghost var p, before := parent.value, nodes;
      assert NodeOk(nodes, p);
      var r := Add(parent, Some(name), NoneKind);
      if r == None {
        return false;
      }
      AppendedFrames(before, p, if before[p].kind == GroupKind then Some(name) else None, NoneKind, NoValue);
      setting := r;
      ok := true;
    }

    // A bracket is opened: as a new element of a list, or as the value of the setting.
    method ActOpen(c: Container)
      requires Valid() && Open(View(), c).Proceed?
      requires Parent(View()).container == InList ==> !Pending()
      modifies this
      ensures Valid() && Open(old(View()), c) == Proceed(View())
    {
      if nodes[parent.value].kind == ListKind {
        OpenElement(KindOfContainer(c));
      } else {
        OpenSetting(KindOfContainer(c));
      }
    }

    method OpenElement(k: Kind)
      requires Valid() && !Pending() && IsContainer(k) && Parent(View()).container == InList
      modifies this
      ensures Valid()
      ensures View() == old(View()).(frames := old(View()).frames + [Frame(None, ContainerOf(k), [])])
    {
      hide Outer, FrameOf, Trees, Tree, Spine;
      ghost var p, before := parent.value, nodes;
      AppendedFrames(before, p, None, k, NoValue);
      parent := Add(parent, None, k);
      OpenLast(nodes, p, parent.value);
    }

    method OpenSetting(k: Kind)
      requires Valid() && Pending() && IsContainer(k)
      modifies this
      ensures Valid()
      ensures View() == old(View()).(pending := None,
        frames := old(View()).frames + [Frame(old(View()).pending.value, ContainerOf(k), [])])
    {
      ghost var p, before := parent.value, nodes;
      TypedFrames(before, p, setting.value, k, nodes[setting.value].payload);
      nodes := nodes[setting.value := nodes[setting.value].(kind := k)];
      assert nodes == Typed(before, setting.value, k, before[setting.value].payload);
      parent := setting;
      setting := None;
      OpenLast(nodes, p, parent.value);
    }

    // The innermost bracket is closed.
    method ActClose()
      requires Valid() && !Pending() && Close(View()).Proceed?
      modifies this
      ensures Valid() && Close(old(View())) == Proceed(View())
    {
      if parent.Some? {
        ghost var p := parent.value;
        CloseLast(nodes, p);
        parent := nodes[parent.value].parent;
      }
    }

    // A scalar is stored: as a new element, or in the setting.
    method ActScalar(v: Value) returns (ok: bool)
      requires Valid() && IsScalar(v) && !Store(View(), v).Illegal?
      requires Parent(View()).container != InGroup ==> !Pending()
      modifies this
      ensures var e := Store(old(View()), v);
        ok == e.Proceed? && (ok ==> Valid() && View() == e.ctx)
    {
      if nodes[parent.value].kind == ArrayKind || nodes[parent.value].kind == ListKind {
        ok := StoreElement(v);
      } else {
        StoreSetting(v);
        ok := true;
      }
    }

    method StoreElement(v: Value) returns (ok: bool)
      requires Valid() && IsScalar(v) && !Pending() && Parent(View()).container != InGroup
      modifies this
      ensures var e := Store(old(View()), v);
        ok == e.Proceed? && (ok ==> Valid() && View() == e.ctx)
    {
      ghost var p, before := parent.value, nodes;
      FirstKid();
      var r := SetElement(parent.value, -1, v);
      ok := r.Some?;
      if ok {
        AppendedScalar(before, p, v);
      }
    }

    // The type of the first element, in memory and in the tree.
    lemma FirstKid()
      requires Valid() && !Pending()
      ensures var ks := nodes[parent.value].kids; var kids := Parent(View()).kids;
        && (ks == [] <==> kids == [])
        && (ks != [] ==> KindAt(nodes, ks[0]) == KindOf(kids[0].value))
    {
      var ks := nodes[parent.value].kids;
      assert ks == Complete();
      if ks != [] {
        assert ks[0] in ks;
        assert NodeOk(nodes, ks[0]);
        assert Trees(nodes, parent.value, ks)[0] == Tree(nodes, ks[0]);
      }
    }

    method StoreSetting(v: Value)
      requires Valid() && IsScalar(v) && Pending() && Parent(View()).container == InGroup
      modifies this
      ensures Valid() && Store(old(View()), v) == Proceed(View())
    {
      ghost var p, x, before := parent.value, setting.value, nodes;
      TypedFrames(before, p, x, KindOf(v), v);
      var ok := SetScalar(setting.value, v);
      assert nodes == Typed(before, x, KindOf(v), v);
      assert Tree(nodes, x) == Setting(before[x].name, v);
    }

    // parsectx_append_string
    method ActText(s: string)
      requires Valid()
      modifies this
      ensures Valid() && View() == AppendText(old(View()), s)
    {
      text := Some(if text.Some? then text.value + s else s);
    }

    // parsectx_take_string
    method TakeText() returns (t: Option<string>)
      requires Valid()
      modifies this
      ensures Valid() && t == old(text) && View() == old(View()).(text := None)
    {
      t := text;
      text := None;
    }

    // The action of rule n, given the top of the value stack.
    method Act(n: int, top: Val) returns (ok: bool)
      requires Valid() && !Parser.Act(n, top, View()).Illegal?
      requires Pending() ==> n != 13 && n != 16 && n != 18 && n != 43 && Parent(View()).container == InGroup
      modifies this
      ensures var e := Parser.Act(n, top, old(View()));
        ok == e.Proceed? && (ok ==> Valid() && View() == e.ctx)
    {
      ok := true;
      if n == 13 {
        ok := ActName(top.token.name);
      } else if n == 15 {
        ActOpen(InArray);
      } else if n == 17 {
        ActOpen(InList);
      } else if n == 42 {
        ActOpen(InGroup);
      } else if n == 16 || n == 18 || n == 43 {
        ActClose();
      } else if n == 23 || n == 24 {
        ActText(top.token.text);
      } else if 25 <= n <= 30 {
        ok := ActScalar(ScalarOf(n, top).value);
      } else if n == 31 {
        var t := TakeText();
        ok := ActScalar(String(t));
      }
    }
  }

  ghost function KindAt(ns: seq<Node>, i: nat): Kind
  {
    if i < |ns| then ns[i].kind else NoneKind
  }
}
