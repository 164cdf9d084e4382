// The concrete syntax of configuration documents: what a document looks like as tokens,
// which settings it denotes, when it is well typed, and how deep a stack parsing it needs.
module Documents {
  import opened Settings

  datatype Scalar =
    | SBool(flag: int)
    | SInt(int32: int)
    | SHex(int32: int)
    | SInt64(int64: int)
    | SHex64(int64: int)
    | SFloat(number: real)
    | SString(first: string, others: seq<string>)  // adjacent literals, which are joined

  datatype Separator = Nothing | Semicolon | Comma

  datatype Item =
    | Plain(scalar: Scalar)
    | ArrayItem(elements: seq<Scalar>, comma: bool)  // with a trailing comma or not
    | ListItem(items: seq<Item>, comma: bool)
    | GroupItem(members: seq<Member>)

  datatype Member = Member(name: string, item: Item, sep: Separator)

  // ---------- Tokens ----------

  function StringToks(parts: seq<string>): seq<Token>
  {
    if parts == [] then [] else [TString(parts[0])] + StringToks(parts[1..])
  }

  function ScalarToks(s: Scalar): (ts: seq<Token>)
    ensures ts != []
  {
    match s
    case SBool(b) => [TBool(b)]
    case SInt(i) => [TInt(i)]
    case SHex(i) => [THex(i)]
    case SInt64(i) => [TInt64(i)]
    case SHex64(i) => [THex64(i)]
    case SFloat(x) => [TFloat(x)]
    case SString(p, ps) => [TString(p)] + StringToks(ps)
  }

  function SepToks(s: Separator): seq<Token>
  {
    match s
    case Nothing => []
    case Semicolon => [TSemicolon]
    case Comma => [TComma]
  }

  function CommaToks(comma: bool): seq<Token>
  {
    if comma then [TComma] else []
  }

  function ItemToks(v: Item): (ts: seq<Token>)
    ensures ts != []
  {
    match v
    case Plain(s) => ScalarToks(s)
    case ArrayItem(es, comma) =>
      [TArrayStart]
      + (if es == [] then [] else ScalarToks(es[0]) + MoreScalarToks(es[1..]) + CommaToks(comma))
      + [TArrayEnd]
    case ListItem(vs, comma) =>
      [TListStart]
      + (if vs == [] then [] else ItemToks(vs[0]) + MoreItemToks(vs[1..]) + CommaToks(comma))
      + [TListEnd]
    case GroupItem(ms) => [TGroupStart] + MemberToks(ms) + [TGroupEnd]
  }

  function MoreScalarToks(es: seq<Scalar>): seq<Token>
  {
    if es == [] then [] else [TComma] + ScalarToks(es[0]) + MoreScalarToks(es[1..])
  }

  function MoreItemToks(vs: seq<Item>): seq<Token>
  {
    if vs == [] then [] else [TComma] + ItemToks(vs[0]) + MoreItemToks(vs[1..])
  }

  function MemberToks(ms: seq<Member>): seq<Token>
  {
    if ms == [] then []
    else [TName(ms[0].name), TEquals] + ItemToks(ms[0].item) + SepToks(ms[0].sep) + MemberToks(ms[1..])
  }

  // ---------- The settings a document denotes ----------

  function Joined(parts: seq<string>): string
  {
    if parts == [] then "" else parts[0] + Joined(parts[1..])
  }

  function ScalarValue(s: Scalar): Value
  {
    match s
    case SBool(b) => Bool(b)
    case SInt(i) => Int(i, Decimal)
    case SHex(i) => Int(i, Hex)
    case SInt64(i) => Int64(i, Decimal)
    case SHex64(i) => Int64(i, Hex)
    case SFloat(x) => Float(x)
    case SString(p, ps) => String(Some(p + Joined(ps)))
  }

  function ItemValue(v: Item): Value
  {
    match v
    case Plain(s) => ScalarValue(s)
    case ArrayItem(es, _) => Array(ScalarKids(es))
    case ListItem(vs, _) => List(ItemKids(vs))
    case GroupItem(ms) => Group(MemberKids(ms))
  }

  function ScalarKids(es: seq<Scalar>): seq<Setting>
  {
    if es == [] then [] else [Setting(None, ScalarValue(es[0]))] + ScalarKids(es[1..])
  }

  function ItemKids(vs: seq<Item>): seq<Setting>
  {
    if vs == [] then [] else [Setting(None, ItemValue(vs[0]))] + ItemKids(vs[1..])
  }

  function MemberKids(ms: seq<Member>): seq<Setting>
  {
    if ms == [] then [] else [Setting(Some(ms[0].name), ItemValue(ms[0].item))] + MemberKids(ms[1..])
  }

  // ---------- Well-typed documents ----------

  // All elements of an array have the type of its first, and member names are valid.
  predicate Typed(v: Item)
  {
    match v
    case Plain(_) => true
    case ArrayItem(es, _) => es == [] || SameKind(es[1..], KindOf(ScalarValue(es[0])))
    case ListItem(vs, _) => ItemsTyped(vs)
    case GroupItem(ms) => MembersTyped(ms)
  }

  predicate SameKind(es: seq<Scalar>, k: Kind)
  {
    es == [] || (KindOf(ScalarValue(es[0])) == k && SameKind(es[1..], k))
  }

  predicate ItemsTyped(vs: seq<Item>)
  {
    vs == [] || (Typed(vs[0]) && ItemsTyped(vs[1..]))
  }

  predicate MembersTyped(ms: seq<Member>)
  {
    ms == [] || (ValidName(ms[0].name) && Typed(ms[0].item) && MembersTyped(ms[1..]))
  }

  // ---------- The stack a document needs ----------

  // Parsing the item from a stack of height h never makes the stack reach height d.
  predicate ScalarFits(s: Scalar, h: nat, d: nat)
  {
    h + (if s.SString? && s.others != [] then 2 else 1) < d
  }

  predicate Fits(v: Item, h: nat, d: nat)
  {
    match v
    case Plain(s) => ScalarFits(s, h, d)
    case ArrayItem(es, _) => h + 4 < d && (es == [] || (ScalarFits(es[0], h + 2, d) && ScalarsFit(es[1..], h + 4, d)))
    case ListItem(vs, _) => h + 4 < d && (vs == [] || (Fits(vs[0], h + 2, d) && ItemsFit(vs[1..], h + 4, d)))
    case GroupItem(ms) => h + 4 < d && (ms == [] || (MemberFits(ms[0], h + 2, d) && MembersFit(ms[1..], h + 3, d)))
  }

  predicate ScalarsFit(es: seq<Scalar>, h: nat, d: nat)
  {
    es == [] || (ScalarFits(es[0], h, d) && ScalarsFit(es[1..], h, d))
  }

  predicate ItemsFit(vs: seq<Item>, h: nat, d: nat)
  {
    vs == [] || (Fits(vs[0], h, d) && ItemsFit(vs[1..], h, d))
  }

  predicate MemberFits(m: Member, h: nat, d: nat)
  {
    Fits(m.item, h + 3, d) && h + 5 < d
  }

  predicate MembersFit(ms: seq<Member>, h: nat, d: nat)
  {
    ms == [] || (MemberFits(ms[0], h, d) && MembersFit(ms[1..], h, d))
  }

  // A whole document: the members of the root group.
  predicate DocumentFits(ms: seq<Member>, d: nat)
  {
    3 < d && (ms == [] || (MemberFits(ms[0], 1, d) && MembersFit(ms[1..], 2, d)))
  }
}
