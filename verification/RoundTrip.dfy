// Writing a configuration and reading it back.
module RoundTrip {
  import Grammar
  import opened Settings
  import opened Parser
  import opened Documents
  import opened Writer
  import Completeness

  // ---------- What can be written and read back ----------

  // Every member has a name that scans as one name token, elements have none, integers
  // are in range, the elements of an array are scalars of one type, and nothing is left
  // without a value.
  predicate Writable(sc: Scanner, v: Value)
  {
    match v
    case NoValue => false
    case Int(i, _) => INT32_MIN <= i <= INT32_MAX
    case Array(es) => es == [] || WritableArray(es, KindOf(es[0].value))
    case List(es) => WritableElements(sc, es)
    case Group(ms) => WritableMembers(sc, ms)
    case _ => true
  }

  predicate WritableArray(es: seq<Setting>, k: Kind)
  {
    es == [] || (es[0].name == None && IsScalar(es[0].value) && KindOf(es[0].value) == k
                 && InRange(es[0].value) && WritableArray(es[1..], k))
  }

  predicate InRange(v: Value)
  {
    v.Int? ==> INT32_MIN <= v.int32 <= INT32_MAX
  }

  predicate WritableElements(sc: Scanner, es: seq<Setting>)
  {
    es == [] || (es[0].name == None && WritableSetting(sc, es[0]) && WritableElements(sc, es[1..]))
  }

  predicate WritableMembers(sc: Scanner, ms: seq<Setting>)
  {
    ms == [] || (ms[0].name.Some? && ValidName(ms[0].name.value)
                 && sc.word(ms[0].name.value) == [TName(ms[0].name.value)]
                 && WritableSetting(sc, ms[0]) && WritableMembers(sc, ms[1..]))
  }

  predicate WritableSetting(sc: Scanner, s: Setting)
  {
    Writable(sc, s.value)
  }

  // ---------- What comes back ----------

  // The low 31 bits of a 32-bit integer.
  function Low31(i: int): int
  {
    i % TWO_TO_THE_31
  }

  function RereadScalar(o: Options, sc: Scanner, v: Value): Value
    requires IsScalar(v)
  {
    match v
    case Bool(b) => Bool(if b != 0 then 1 else 0)
    case Int(i, f) => if Effective(o, f) == Hex then Int(Low31(i), Hex) else Int(i, Decimal)
    case Int64(i, f) => Int64(i, Effective(o, f))
    case Float(x) => Float(sc.number(x))
    case String(t) => String(Some(if t.Some? then t.value else ""))
  }

  // The value read back: flags become 0 or 1, integers get the format they were written
  // in, and 32-bit integers written in hexadecimal lose their sign bit.
  function Reread(o: Options, sc: Scanner, v: Value): Value
  {
    match v
    case NoValue => NoValue
    case Array(es) => Array(RereadAll(o, sc, es))
    case List(es) => List(RereadAll(o, sc, es))
    case Group(ms) => Group(RereadAll(o, sc, ms))
    case _ => RereadScalar(o, sc, v)
  }

  function RereadAll(o: Options, sc: Scanner, ss: seq<Setting>): seq<Setting>
  {
    if ss == [] then [] else [RereadSetting(o, sc, ss[0])] + RereadAll(o, sc, ss[1..])
  }

  function RereadSetting(o: Options, sc: Scanner, s: Setting): Setting
  {
    Setting(s.name, Reread(o, sc, s.value))
  }

  // ---------- The document that is written ----------

  function ScalarOf(o: Options, sc: Scanner, v: Value): Scalar
    requires IsScalar(v)
  {
    match v
    case Bool(b) => SBool(if b != 0 then 1 else 0)
    case Int(i, f) => if Effective(o, f) == Hex then SHex(Low31(i)) else SInt(i)
    case Int64(i, f) => if Effective(o, f) == Hex then SHex64(i) else SInt64(i)
    case Float(x) => SFloat(sc.number(x))
    case String(t) => SString(if t.Some? then t.value else "", [])
  }

  function ItemOf(o: Options, sc: Scanner, v: Value): Item
    requires Writable(sc, v)
  {
    if v.Array? then
      ArrayItem(if v.elements == [] then [] else ScalarsOf(o, sc, v.elements, KindOf(v.elements[0].value)), false)
    else if v.List? then ListItem(ItemsOf(o, sc, v.items), false)
    else if v.Group? then GroupItem(MembersOf(o, sc, v.members))
    else Plain(ScalarOf(o, sc, v))
  }

  function ScalarsOf(o: Options, sc: Scanner, es: seq<Setting>, k: Kind): seq<Scalar>
    requires WritableArray(es, k)
  {
    if es == [] then [] else [ScalarOf(o, sc, es[0].value)] + ScalarsOf(o, sc, es[1..], k)
  }

  function ItemsOf(o: Options, sc: Scanner, es: seq<Setting>): seq<Item>
    requires WritableElements(sc, es)
  {
    if es == [] then [] else [SettingItem(o, sc, es[0])] + ItemsOf(o, sc, es[1..])
  }

  function SettingItem(o: Options, sc: Scanner, s: Setting): Item
    requires WritableSetting(sc, s)
  {
    ItemOf(o, sc, s.value)
  }

  function MembersOf(o: Options, sc: Scanner, ms: seq<Setting>): seq<Member>
    requires WritableMembers(sc, ms)
  {
    if ms == [] then []
    else
      [Member(ms[0].name.value, SettingItem(o, sc, ms[0]), if o.semicolons then Semicolon else Nothing)]
      + MembersOf(o, sc, ms[1..])
  }

  // ---------- The writer writes that document ----------

  lemma ScalarWritten(o: Options, sc: Scanner, v: Value)
    requires IsScalar(v) && InRange(v)
    ensures ScalarToks(ScalarOf(o, sc, v)) == ScalarTokens(o, sc, v)
    ensures ScalarValue(ScalarOf(o, sc, v)) == RereadScalar(o, sc, v)
    ensures KindOf(RereadScalar(o, sc, v)) == KindOf(v)
  {
    if v.Int? {
      HexWritten(v.int32);
    } else if v.String? {
      assert Joined([]) == "";
      var t := if v.text.Some? then v.text.value else "";
      assert t + "" == t;
    }
  }

  lemma HexWritten(i: int)
    requires INT32_MIN <= i <= INT32_MAX
    ensures HexToken(i) == THex(Low31(i))
    ensures Low31(i) == if i < 0 then i + TWO_TO_THE_31 else i
  {
    if i < 0 {
      assert i % TWO_TO_THE_32 == i + TWO_TO_THE_32;
      assert (i + TWO_TO_THE_32) % TWO_TO_THE_31 == i + TWO_TO_THE_31 by {
        assert i + TWO_TO_THE_32 == 1 * TWO_TO_THE_31 + (i + TWO_TO_THE_31);
      }
    }
  }

  lemma ScalarElement(o: Options, sc: Scanner, e: Setting, depth: nat)
    requires IsScalar(e.value)
    ensures ElementToken(o, sc, e, depth) == ScalarTokens(o, sc, e.value)
    ensures Reread(o, sc, e.value) == RereadScalar(o, sc, e.value)
  {
  }

  lemma {:induction false} ArrayWritten(o: Options, sc: Scanner, es: seq<Setting>, k: Kind, depth: nat)
    requires WritableArray(es, k)
    ensures var ss := ScalarsOf(o, sc, es, k);
      && SameKind(ss, k) && ScalarKids(ss) == RereadAll(o, sc, es) && |ss| == |es|
      && ElementTokens(o, sc, es, depth) == (if ss == [] then [] else ScalarToks(ss[0]) + MoreScalarToks(ss[1..]))
  {
    if es != [] {
      ScalarWritten(o, sc, es[0].value);
      ScalarElement(o, sc, es[0], depth + 1);
      ArrayWritten(o, sc, es[1..], k, depth);
      var ss := ScalarsOf(o, sc, es, k);
      var rest := ScalarsOf(o, sc, es[1..], k);
      assert ss[1..] == rest;
      if rest == [] {
        assert ElementTokens(o, sc, es[1..], depth) == [];
        assert ElementTokens(o, sc, es, depth) == ScalarToks(ss[0]) + [] + [];
      } else {
        Associate(ScalarToks(ss[0]), [TComma], ElementTokens(o, sc, es[1..], depth));
        Associate([TComma], ScalarToks(rest[0]), MoreScalarToks(rest[1..]));
      }
    }
  }

  lemma Associate(a: seq<Token>, b: seq<Token>, c: seq<Token>)
    ensures (a + b) + c == a + (b + c)
  {
  }

  // The item stands for exactly the tokens written and the value read back.
  lemma {:induction false} ValueWritten(o: Options, sc: Scanner, v: Value, depth: nat)
    requires Writable(sc, v) && depth > 0
    ensures var item := ItemOf(o, sc, v);
      ItemToks(item) == ValueTokens(o, sc, v, depth) && ItemValue(item) == Reread(o, sc, v) && Typed(item)
    decreases v, 1
  {
    if v.Array? {
      if v.elements != [] {
        ArrayWritten(o, sc, v.elements, KindOf(v.elements[0].value), depth);
        var ss := ScalarsOf(o, sc, v.elements, KindOf(v.elements[0].value));
        assert KindOf(ScalarValue(ss[0])) == KindOf(v.elements[0].value);
        assert ScalarToks(ss[0]) + MoreScalarToks(ss[1..]) + [] == ScalarToks(ss[0]) + MoreScalarToks(ss[1..]);
      }
    } else if v.List? {
      ElementsWritten(o, sc, v.items, depth);
      var vs := ItemsOf(o, sc, v.items);
      if vs != [] {
        assert ItemToks(vs[0]) + MoreItemToks(vs[1..]) + [] == ItemToks(vs[0]) + MoreItemToks(vs[1..]);
      }
    } else if v.Group? {
      MembersWritten(o, sc, v.members, depth);
    } else {
      ScalarWritten(o, sc, v);
    }
  }

  lemma {:induction false} SettingWritten(o: Options, sc: Scanner, s: Setting, depth: nat)
    requires WritableSetting(sc, s) && depth > 0
    ensures var item := SettingItem(o, sc, s);
      ItemToks(item) == ValueTokens(o, sc, s.value, depth) && ItemValue(item) == Reread(o, sc, s.value) && Typed(item)
    decreases s, 2
  {
    ValueWritten(o, sc, s.value, depth);
  }

  lemma {:induction false} ElementsWritten(o: Options, sc: Scanner, es: seq<Setting>, depth: nat)
    requires WritableElements(sc, es)
    ensures var vs := ItemsOf(o, sc, es);
      && ItemsTyped(vs) && ItemKids(vs) == RereadAll(o, sc, es) && |vs| == |es|
      && ElementTokens(o, sc, es, depth) == (if vs == [] then [] else ItemToks(vs[0]) + MoreItemToks(vs[1..]))
    decreases es, 0
  {
    if es != [] {
      SettingWritten(o, sc, es[0], depth + 1);
      ElementsWritten(o, sc, es[1..], depth);
      var vs := ItemsOf(o, sc, es);
      var rest := ItemsOf(o, sc, es[1..]);
      assert vs[1..] == rest;
      if rest == [] {
        assert ElementTokens(o, sc, es[1..], depth) == [];
        assert ElementTokens(o, sc, es, depth) == ItemToks(vs[0]) + [] + [];
      } else {
        Associate(ItemToks(vs[0]), [TComma], ElementTokens(o, sc, es[1..], depth));
        Associate([TComma], ItemToks(rest[0]), MoreItemToks(rest[1..]));
      }
    }
  }

  lemma {:induction false} MembersWritten(o: Options, sc: Scanner, ms: seq<Setting>, depth: nat)
    requires WritableMembers(sc, ms)
    ensures var ds := MembersOf(o, sc, ms);
      && MembersTyped(ds) && MemberKids(ds) == RereadAll(o, sc, ms) && |ds| == |ms|
      && MemberToks(ds) == MemberTokens(o, sc, ms, depth)
    decreases ms, 0
  {
    if ms != [] {
      SettingWritten(o, sc, ms[0], depth + 1);
      MembersWritten(o, sc, ms[1..], depth);
      var ds := MembersOf(o, sc, ms);
      assert ds[1..] == MembersOf(o, sc, ms[1..]);
      var name := ms[0].name.value;
      assert sc.word(name) + [TEquals] == [TName(name), TEquals];
    }
  }

  // ---------- The round trip ----------

  // Every writable configuration, written with any options, is read back as the same tree
  // of settings up to Reread, unless it is nested too deeply for the parser's stack.
  lemma WriteThenRead(o: Options, sc: Scanner, members: seq<Setting>)
    requires WritableMembers(sc, members)
    ensures var result := Parse(ConfigTokens(o, sc, Setting(None, Group(members))));
      && (result.Accepted? <==> DocumentFits(MembersOf(o, sc, members), Grammar.YYMAXDEPTH))
      && (result.Accepted? ==>
            result.ctx == Ctx([Frame(None, InGroup, RereadAll(o, sc, members))], None, None))
  {
    var ds := MembersOf(o, sc, members);
    MembersWritten(o, sc, members, 0);
    RootWritten(o, sc, members);
    Completeness.ParseDocument(ds);
  }

  lemma RootWritten(o: Options, sc: Scanner, members: seq<Setting>)
    ensures ConfigTokens(o, sc, Setting(None, Group(members))) == MemberTokens(o, sc, members, 0)
  {
    var ts := MemberTokens(o, sc, members, 0);
    assert GroupTokens(o, sc, members, 0) == [] + ts + [];
    assert ValueTokens(o, sc, Group(members), 0) == ts;
  }

  // ---------- When the round trip is the identity ----------

  // Flags are 0 or 1; decimal integers are there only if the default format is decimal, and
  // hexadecimal ones of 32 bits only if they are not negative; strings are present, and
  // numbers survive being printed.
  predicate Faithful(o: Options, sc: Scanner, v: Value)
  {
    match v
    case NoValue => true
    case Bool(b) => b == 0 || b == 1
    case Int(i, f) => if f == Decimal then o.defaultFormat == Decimal else i >= 0
    case Int64(_, f) => f == Decimal ==> o.defaultFormat == Decimal
    case Float(x) => sc.number(x) == x
    case String(t) => t.Some?
    case Array(es) => AllFaithful(o, sc, es)
    case List(es) => AllFaithful(o, sc, es)
    case Group(ms) => AllFaithful(o, sc, ms)
  }

  predicate AllFaithful(o: Options, sc: Scanner, ss: seq<Setting>)
  {
    ss == [] || (FaithfulSetting(o, sc, ss[0]) && AllFaithful(o, sc, ss[1..]))
  }

  predicate FaithfulSetting(o: Options, sc: Scanner, s: Setting)
  {
    Faithful(o, sc, s.value)
  }

  // Integers are 32-bit wherever they occur.
  predicate AllInRange(ss: seq<Setting>)
  {
    ss == [] || (SettingInRange(ss[0]) && AllInRange(ss[1..]))
  }

  predicate SettingInRange(s: Setting)
  {
    match s.value
    case Int(i, _) => INT32_MIN <= i <= INT32_MAX
    case Array(es) => AllInRange(es)
    case List(es) => AllInRange(es)
    case Group(ms) => AllInRange(ms)
    case _ => true
  }

  lemma {:induction false} RereadIdentity(o: Options, sc: Scanner, ss: seq<Setting>)
    requires AllInRange(ss)
    ensures RereadAll(o, sc, ss) == ss <==> AllFaithful(o, sc, ss)
    ensures |RereadAll(o, sc, ss)| == |ss|
    decreases ss, 0
  {
    if ss != [] {
      RereadSettingIdentity(o, sc, ss[0]);
      RereadIdentity(o, sc, ss[1..]);
      assert ss == [ss[0]] + ss[1..];
      assert RereadAll(o, sc, ss)[0] == RereadSetting(o, sc, ss[0]);
      assert RereadAll(o, sc, ss)[1..] == RereadAll(o, sc, ss[1..]);
    }
  }

  lemma {:induction false} RereadSettingIdentity(o: Options, sc: Scanner, s: Setting)
    requires SettingInRange(s)
    ensures RereadSetting(o, sc, s) == s <==> FaithfulSetting(o, sc, s)
    decreases s, 1
  {
    match s.value
    case Int(i, _) => HexWritten(i);
    case Array(es) => RereadIdentity(o, sc, es);
    case List(es) => RereadIdentity(o, sc, es);
    case Group(ms) => RereadIdentity(o, sc, ms);
    case _ =>
  }

  lemma {:induction false} WritableInRange(sc: Scanner, ms: seq<Setting>)
    requires WritableMembers(sc, ms)
    ensures AllInRange(ms)
    decreases ms, 0
  {
    if ms != [] {
      WritableSettingInRange(sc, ms[0]);
      WritableInRange(sc, ms[1..]);
    }
  }

  lemma {:induction false} WritableElementsInRange(sc: Scanner, es: seq<Setting>)
    requires WritableElements(sc, es)
    ensures AllInRange(es)
    decreases es, 0
  {
    if es != [] {
      WritableSettingInRange(sc, es[0]);
      WritableElementsInRange(sc, es[1..]);
    }
  }

  lemma {:induction false} WritableArrayInRange(es: seq<Setting>, k: Kind)
    requires WritableArray(es, k)
    ensures AllInRange(es)
  {
    if es != [] {
      WritableArrayInRange(es[1..], k);
    }
  }

  lemma {:induction false} WritableSettingInRange(sc: Scanner, s: Setting)
    requires WritableSetting(sc, s)
    ensures SettingInRange(s)
    decreases s, 1
  {
    if s.value.Array? {
      if s.value.elements != [] {
        WritableArrayInRange(s.value.elements, KindOf(s.value.elements[0].value));
      }
    } else if s.value.List? {
      WritableElementsInRange(sc, s.value.items);
    } else if s.value.Group? {
      WritableInRange(sc, s.value.members);
    }
  }

  // A writable configuration that the parser has room for comes back unchanged if and
  // only if it is faithful to what the writer prints.
  lemma RoundTripExact(o: Options, sc: Scanner, members: seq<Setting>)
    requires WritableMembers(sc, members)
    requires DocumentFits(MembersOf(o, sc, members), Grammar.YYMAXDEPTH)
    ensures Parse(ConfigTokens(o, sc, Setting(None, Group(members))))
            == Accepted(Ctx([Frame(None, InGroup, members)], None, None))
            <==> AllFaithful(o, sc, members)
  {
    WriteThenRead(o, sc, members);
    WritableInRange(sc, members);
    RereadIdentity(o, sc, members);
  }

  // ---------- How deep a configuration may be nested ----------

  function Max(a: nat, b: nat): nat
  {
    if a < b then b else a
  }

  // How many brackets deep a value is.
  function Nesting(v: Value): nat
  {
    match v
    case Array(es) => 1 + NestingOfAll(es)
    case List(es) => 1 + NestingOfAll(es)
    case Group(ms) => 1 + NestingOfAll(ms)
    case _ => 0
  }

  function NestingOfAll(ss: seq<Setting>): nat
  {
    if ss == [] then 0 else Max(SettingNesting(ss[0]), NestingOfAll(ss[1..]))
  }

  function SettingNesting(s: Setting): nat
  {
    Nesting(s.value)
  }

  lemma {:induction false} SettingFits(o: Options, sc: Scanner, s: Setting, h: nat, d: nat)
    requires WritableSetting(sc, s) && h + 6 * SettingNesting(s) + 2 < d
    ensures Fits(SettingItem(o, sc, s), h, d)
    decreases s, 1
  {
    if s.value.Array? {
      if s.value.elements != [] {
        ArrayFits(o, sc, s.value.elements, KindOf(s.value.elements[0].value), h + 4, d);
      }
    } else if s.value.List? {
      ElementsFit(o, sc, s.value.items, h + 4, d);
      if s.value.items != [] {
        SettingFits(o, sc, s.value.items[0], h + 2, d);
      }
    } else if s.value.Group? {
      MembersFitIn(o, sc, s.value.members, h + 3, d);
      if s.value.members != [] {
        SettingFits(o, sc, s.value.members[0], h + 5, d);
      }
    }
  }

  lemma {:induction false} ArrayFits(o: Options, sc: Scanner, es: seq<Setting>, k: Kind, h: nat, d: nat)
    requires WritableArray(es, k) && h + 2 < d
    ensures ScalarsFit(ScalarsOf(o, sc, es, k), h, d)
  {
    if es != [] {
      ArrayFits(o, sc, es[1..], k, h, d);
      assert ScalarsOf(o, sc, es, k)[1..] == ScalarsOf(o, sc, es[1..], k);
    }
  }

  lemma {:induction false} ElementsFit(o: Options, sc: Scanner, es: seq<Setting>, h: nat, d: nat)
    requires WritableElements(sc, es) && h + 6 * NestingOfAll(es) + 2 < d
    ensures ItemsFit(ItemsOf(o, sc, es), h, d)
    decreases es, 0
  {
    if es != [] {
      SettingFits(o, sc, es[0], h, d);
      ElementsFit(o, sc, es[1..], h, d);
      assert ItemsOf(o, sc, es)[1..] == ItemsOf(o, sc, es[1..]);
    }
  }

  lemma {:induction false} MembersFitIn(o: Options, sc: Scanner, ms: seq<Setting>, h: nat, d: nat)
    requires WritableMembers(sc, ms) && h + 3 + 6 * NestingOfAll(ms) + 2 < d
    ensures MembersFit(MembersOf(o, sc, ms), h, d)
    decreases ms, 0
  {
    if ms != [] {
      SettingFits(o, sc, ms[0], h + 3, d);
      MembersFitIn(o, sc, ms[1..], h, d);
      assert MembersOf(o, sc, ms)[1..] == MembersOf(o, sc, ms[1..]);
    }
  }

  // Every writable configuration of at most 1665 levels comes back.
  lemma RoundTripShallow(o: Options, sc: Scanner, members: seq<Setting>)
    requires WritableMembers(sc, members) && NestingOfAll(members) <= 1665
    ensures Parse(ConfigTokens(o, sc, Setting(None, Group(members))))
            == Accepted(Ctx([Frame(None, InGroup, RereadAll(o, sc, members))], None, None))
  {
    var ds := MembersOf(o, sc, members);
    MembersFitIn(o, sc, members, 2, Grammar.YYMAXDEPTH);
    if members != [] {
      SettingFits(o, sc, members[0], 4, Grammar.YYMAXDEPTH);
      assert ds[1..] == MembersOf(o, sc, members[1..]);
    }
    assert DocumentFits(ds, Grammar.YYMAXDEPTH);
    WriteThenRead(o, sc, members);
  }

  // A member named x.
  function Single(v: Value): seq<Setting>
  {
    [Setting(Some("x"), v)]
  }

  lemma SingleIsWritable(sc: Scanner, v: Value)
    requires sc.word("x") == [TName("x")] && IsScalar(v) && InRange(v)
    ensures WritableMembers(sc, Single(v)) && NestingOfAll(Single(v)) == 0
  {
    var s := Single(v)[0];
    assert ValidName("x") && Single(v)[1..] == [];
    assert WritableSetting(sc, s) && WritableMembers(sc, []);
    assert SettingNesting(s) == 0 && NestingOfAll([]) == 0;
  }

  lemma SingleReread(o: Options, sc: Scanner, v: Value)
    requires IsScalar(v)
    ensures RereadAll(o, sc, Single(v)) == Single(RereadScalar(o, sc, v))
  {
    var s := Single(v)[0];
    assert Single(v)[1..] == [];
    assert RereadSetting(o, sc, s) == Setting(s.name, RereadScalar(o, sc, v)) && RereadAll(o, sc, []) == [];
  }

  lemma SingleReturns(o: Options, sc: Scanner, v: Value)
    requires sc.word("x") == [TName("x")] && IsScalar(v) && InRange(v)
    ensures Parse(ConfigTokens(o, sc, Setting(None, Group(Single(v)))))
            == Accepted(Ctx([Frame(None, InGroup, Single(RereadScalar(o, sc, v)))], None, None))
  {
    hide Parse, ConfigTokens, WritableMembers, NestingOfAll, Single, RereadScalar, RereadAll;
    SingleIsWritable(sc, v);
    SingleReread(o, sc, v);
    RoundTripShallow(o, sc, Single(v));
  }

  // How a 32-bit integer comes back. A decimal one is printed in the default format; one
  // that is printed in hexadecimal gets that format, and if it is negative, 0x80000000 is
  // added to it.
  lemma IntegerReturns(o: Options, sc: Scanner, i: int, f: Format)
    requires sc.word("x") == [TName("x")] && -0x8000_0000 <= i <= 0x7FFF_FFFF
    ensures var back := if f == Decimal && o.defaultFormat == Decimal then Int(i, Decimal)
        else Int(if i < 0 then i + 0x8000_0000 else i, Hex);
      Parse(ConfigTokens(o, sc, Setting(None, Group(Single(Int(i, f))))))
      == Accepted(Ctx([Frame(None, InGroup, Single(back))], None, None))
  {
    SingleReturns(o, sc, Int(i, f));
    HexWritten(i);
  }

  // 64-bit ones lose nothing but their format.
  lemma LongIntegerReturns(o: Options, sc: Scanner, i: int, f: Format)
    requires sc.word("x") == [TName("x")]
    ensures var back := Int64(i, if f == Decimal && o.defaultFormat == Decimal then Decimal else Hex);
      Parse(ConfigTokens(o, sc, Setting(None, Group(Single(Int64(i, f))))))
      == Accepted(Ctx([Frame(None, InGroup, Single(back))], None, None))
  {
    SingleReturns(o, sc, Int64(i, f));
  }

  // A flag comes back as 0 or 1, and a missing string as an empty one.
  lemma OthersReturn(o: Options, sc: Scanner, b: int, t: string)
    requires sc.word("x") == [TName("x")]
    ensures Parse(ConfigTokens(o, sc, Setting(None, Group(Single(Bool(b))))))
            == Accepted(Ctx([Frame(None, InGroup, Single(Bool(if b == 0 then 0 else 1)))], None, None))
    ensures Parse(ConfigTokens(o, sc, Setting(None, Group(Single(String(Some(t)))))))
            == Accepted(Ctx([Frame(None, InGroup, Single(String(Some(t))))], None, None))
    ensures Parse(ConfigTokens(o, sc, Setting(None, Group(Single(String(None))))))
            == Accepted(Ctx([Frame(None, InGroup, Single(String(Some(""))))], None, None))
  {
    hide Parse, ConfigTokens, Single;
    SingleReturns(o, sc, Bool(b));
    SingleReturns(o, sc, String(Some(t)));
    SingleReturns(o, sc, String(None));
  }

  // -1 in hexadecimal is printed as 0xFFFFFFFF and comes back as 0x7FFFFFFF.
  lemma HexExample(o: Options, sc: Scanner)
    requires sc.word("x") == [TName("x")]
    ensures Parse(ConfigTokens(o, sc, Setting(None, Group(Single(Int(-1, Hex))))))
            == Accepted(Ctx([Frame(None, InGroup, Single(Int(0x7FFF_FFFF, Hex)))], None, None))
    ensures o.defaultFormat == Decimal ==>
      Parse(ConfigTokens(o, sc, Setting(None, Group(Single(Int(-1, Decimal))))))
      == Accepted(Ctx([Frame(None, InGroup, Single(Int(-1, Decimal)))], None, None))
  {
    IntegerReturns(o, sc, -1, Hex);
    IntegerReturns(o, sc, -1, Decimal);
  }
}
