// Configuration settings, and the tokens of their textual form.
module Settings {

  datatype Option<+T> = None | Some(value: T)

  datatype Format = Decimal | Hex

  // The types a setting can have; None is the type of a setting that has been named but
  // not given a value yet.
  datatype Kind = NoneKind | GroupKind | IntKind | Int64Kind | FloatKind | StringKind | BoolKind | ArrayKind | ListKind

  // Floating-point numbers are opaque: only their identity matters.
  datatype Value =
    | NoValue
    | Bool(flag: int)
    | Int(int32: int, format: Format)
    | Int64(int64: int, format: Format)
    | Float(number: real)
    | String(text: Option<string>)
    | Group(members: seq<Setting>)
    | Array(elements: seq<Setting>)
    | List(items: seq<Setting>)

  datatype Setting = Setting(name: Option<string>, value: Value)

  function KindOf(v: Value): Kind
  {
    match v
    case NoValue => NoneKind
    case Bool(_) => BoolKind
    case Int(_, _) => IntKind
    case Int64(_, _) => Int64Kind
    case Float(_) => FloatKind
    case String(_) => StringKind
    case Group(_) => GroupKind
    case Array(_) => ArrayKind
    case List(_) => ListKind
  }

  predicate IsScalar(v: Value)
  {
    v.Bool? || v.Int? || v.Int64? || v.Float? || v.String?
  }

  // The kinds of setting that hold other settings.
  datatype Container = InGroup | InArray | InList

  function Contain(c: Container, kids: seq<Setting>): Value
  {
    match c
    case InGroup => Group(kids)
    case InArray => Array(kids)
    case InList => List(kids)
  }

  // Tokens, with the semantic value the scanner attaches to them. The end of input is
  // not a token but the end of the token sequence.
  datatype Token =
    | TBool(flag: int)
    | TInt(int32: int)
    | THex(int32: int)
    | TInt64(int64: int)
    | THex64(int64: int)
    | TFloat(number: real)
    | TString(text: string)
    | TName(name: string)
    | TEquals | TNewline | TArrayStart | TArrayEnd | TListStart | TListEnd | TComma
    | TGroupStart | TGroupEnd | TSemicolon | TGarbage | TError

  // The number of a token's grammar symbol.
  function Num(t: Token): (n: int)
    ensures 3 <= n < 23
  {
    match t
    case TBool(_) => 3
    case TInt(_) => 4
    case THex(_) => 5
    case TInt64(_) => 6
    case THex64(_) => 7
    case TFloat(_) => 8
    case TString(_) => 9
    case TName(_) => 10
    case TEquals => 11
    case TNewline => 12
    case TArrayStart => 13
    case TArrayEnd => 14
    case TListStart => 15
    case TListEnd => 16
    case TComma => 17
    case TGroupStart => 18
    case TGroupEnd => 19
    case TSemicolon => 20
    case TGarbage => 21
    case TError => 22
  }

  predicate IsAlnum(c: char)
  {
    'a' <= c <= 'z' || 'A' <= c <= 'Z' || '0' <= c <= '9'
  }

  // The names the library accepts for a member of a group.
  predicate ValidName(name: string)
  {
    && name != ""
    && (IsAlnum(name[0]) || name[0] == '*')
    && forall i {:trigger name[i]} :: 0 < i < |name| ==> IsAlnum(name[i]) || name[i] in "*_-'."
  }
}
