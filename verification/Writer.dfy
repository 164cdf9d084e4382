// The configuration writer: the tokens its text scans as.
module Writer {
  import opened Settings

  const INT32_MIN := -0x8000_0000
  const INT32_MAX := 0x7fff_ffff
  const TWO_TO_THE_31 := 0x8000_0000
  const TWO_TO_THE_32 := 0x1_0000_0000

  // Writer options that reach the token level: semicolons after settings and the format of
  // integers that have none of their own. Colons and equals signs scan as the same token,
  // and indentation and line breaks as none.
  datatype Options = Options(semicolons: bool, defaultFormat: Format)

  // The parts of the scanner that are not modelled: the tokens a bare word scans as, and
  // the number that a printed number scans as.
  datatype Scanner = Scanner(word: string -> seq<Token>, number: real -> real)

  // config_setting_get_format.
  function Effective(o: Options, f: Format): Format
  {
    if f == Hex then Hex else o.defaultFormat
  }

  // "%d" scanned back: a decimal integer becomes 64 bits wide only if it has to.
  function DecimalToken(i: int): Token
  {
    if i < INT32_MIN || i > INT32_MAX then TInt64(i) else TInt(i)
  }

  // "0x%X" scanned back: the text is the unsigned value, of which the scanner drops the
  // top bit if it is set.
  function HexToken(i: int): Token
  {
    var u := i % TWO_TO_THE_32;
    THex(if u > INT32_MAX then u % TWO_TO_THE_31 else u)
  }

  function ScalarTokens(o: Options, sc: Scanner, v: Value): seq<Token>
    requires IsScalar(v)
  {
    match v
    case Bool(b) => [TBool(if b != 0 then 1 else 0)]
    case Int(i, f) => if Effective(o, f) == Hex then [HexToken(i)] else [DecimalToken(i)]
    case Int64(i, f) => if Effective(o, f) == Hex then [THex64(i)] else [TInt64(i)]
    case Float(x) => [TFloat(sc.number(x))]
    case String(t) => [TString(if t.Some? then t.value else "")]
  }

  function ValueTokens(o: Options, sc: Scanner, v: Value, depth: nat): seq<Token>
    decreases v, 1
  {
    match v
    case NoValue => [TGarbage, TGarbage, TGarbage]
    case List(es) => [TListStart] + ElementTokens(o, sc, es, depth) + [TListEnd]
    case Array(es) => [TArrayStart] + ElementTokens(o, sc, es, depth) + [TArrayEnd]
    case Group(ms) => GroupTokens(o, sc, ms, depth)
    case _ => ScalarTokens(o, sc, v)
  }

  // The root group, at depth 0, has no braces.
  function GroupTokens(o: Options, sc: Scanner, ms: seq<Setting>, depth: nat): seq<Token>
    decreases ms, 1
  {
    (if depth > 0 then [TGroupStart] else [])
    + MemberTokens(o, sc, ms, depth)
    + (if depth > 0 then [TGroupEnd] else [])
  }

  // Elements are written by value only, with commas between them.
  function ElementTokens(o: Options, sc: Scanner, es: seq<Setting>, depth: nat): seq<Token>
    decreases es, 0
  {
    if es == [] then []
    else
      ElementToken(o, sc, es[0], depth + 1)
      + (if |es| > 1 then [TComma] else [])
      + ElementTokens(o, sc, es[1..], depth)
  }

  function ElementToken(o: Options, sc: Scanner, e: Setting, depth: nat): seq<Token>
    decreases e, 2
  {
    ValueTokens(o, sc, e.value, depth)
  }

  function MemberTokens(o: Options, sc: Scanner, ms: seq<Setting>, depth: nat): seq<Token>
    decreases ms, 0
  {
    if ms == [] then [] else SettingTokens(o, sc, ms[0], depth + 1) + MemberTokens(o, sc, ms[1..], depth)
  }

  function SettingTokens(o: Options, sc: Scanner, s: Setting, depth: nat): seq<Token>
    decreases s, 2
  {
    (if s.name.Some? then sc.word(s.name.value) + [TEquals] else [])
    + ValueTokens(o, sc, s.value, depth)
    + (if depth > 0 && o.semicolons then [TSemicolon] else [])
  }

  // A setting below the root ends with a semicolon if and only if these are asked for.
  lemma SemicolonEnds(o: Options, sc: Scanner, s: Setting, depth: nat)
    requires depth > 0
    ensures var ts := SettingTokens(o, sc, s, depth);
      ts != [] && (ts[|ts| - 1] == TSemicolon <==> o.semicolons)
  {
    ValueEnds(o, sc, s.value, depth);
    var ts := ValueTokens(o, sc, s.value, depth);
    assert ts != [] && ts[|ts| - 1] != TSemicolon;
  }

  lemma ValueEnds(o: Options, sc: Scanner, v: Value, depth: nat)
    requires depth > 0
    ensures var ts := ValueTokens(o, sc, v, depth); ts != [] && ts[|ts| - 1] != TSemicolon
  {
  }

  // What config_write writes: the root setting at depth 0.
  function ConfigTokens(o: Options, sc: Scanner, root: Setting): seq<Token>
  {
    SettingTokens(o, sc, root, 0)
  }

  // The writer itself, printing to a stream.
  class Stream {
    var out: seq<Token>

    constructor ()
      ensures out == []
    {
      out := [];
    }

    method Put(ts: seq<Token>)
      modifies this
      ensures out == old(out) + ts
    {
      out := out + ts;
    }

    // __config_write_value
    method WriteValue(o: Options, sc: Scanner, v: Value, depth: nat)
      modifies this
      ensures out == old(out) + ValueTokens(o, sc, v, depth)
      decreases v, 2
    {
      ghost var before := out;
      match v {
        case NoValue =>
          Put([TGarbage, TGarbage, TGarbage]);
        case List(es) =>
          Put([TListStart]);
          WriteElements(o, sc, es, depth);
          Put([TListEnd]);
          Regroup(before, [TListStart], ElementTokens(o, sc, es, depth), [TListEnd]);
        case Array(es) =>
          Put([TArrayStart]);
          WriteElements(o, sc, es, depth);
          Put([TArrayEnd]);
          Regroup(before, [TArrayStart], ElementTokens(o, sc, es, depth), [TArrayEnd]);
        case Group(ms) =>
          WriteGroup(o, sc, ms, depth);
        case _ =>
          Put(ScalarTokens(o, sc, v));
      }
    }

    method WriteGroup(o: Options, sc: Scanner, ms: seq<Setting>, depth: nat)
      modifies this
      ensures out == old(out) + GroupTokens(o, sc, ms, depth)
      decreases ms, 2
    {
      ghost var before := out;
      if depth > 0 {
        Put([TGroupStart]);
      }
      WriteMembers(o, sc, ms, depth);
      if depth > 0 {
        Put([TGroupEnd]);
      }
      var brace := depth > 0;
      Regroup(before, if brace then [TGroupStart] else [], MemberTokens(o, sc, ms, depth),
              if brace then [TGroupEnd] else []);
      assert !brace ==> before + [] == before && out + [] == out;
    }

    method WriteElements(o: Options, sc: Scanner, es: seq<Setting>, depth: nat)
      modifies this
      ensures out == old(out) + ElementTokens(o, sc, es, depth)
      decreases es, 1
    {
      var i := 0;
      var len := |es|;
      while len > 0
        invariant 0 <= len && i + len == |es|
        invariant out + ElementTokens(o, sc, es[i..], depth) == old(out) + ElementTokens(o, sc, es, depth)
      {
        len := len - 1;
        ghost var before := out;
        assert es[i] == es[i..][0] && es[i..][1..] == es[i + 1..];
        WriteElement(o, sc, es[i], depth + 1);
        if len > 0 {
          Put([TComma]);
        }
        Regroup(before, ElementToken(o, sc, es[i], depth + 1), if len > 0 then [TComma] else [],
                ElementTokens(o, sc, es[i + 1..], depth));
        i := i + 1;
      }
    }

    method WriteElement(o: Options, sc: Scanner, e: Setting, depth: nat)
      modifies this
      ensures out == old(out) + ElementToken(o, sc, e, depth)
      decreases e, 3
    {
      WriteValue(o, sc, e.value, depth);
    }

    method WriteMembers(o: Options, sc: Scanner, ms: seq<Setting>, depth: nat)
      modifies this
      ensures out == old(out) + MemberTokens(o, sc, ms, depth)
      decreases ms, 1
    {
      var i := 0;
      while i < |ms|
        invariant 0 <= i <= |ms|
        invariant out + MemberTokens(o, sc, ms[i..], depth) == old(out) + MemberTokens(o, sc, ms, depth)
      {
        ghost var before := out;
        assert ms[i] == ms[i..][0] && ms[i..][1..] == ms[i + 1..];
        WriteSetting(o, sc, ms[i], depth + 1);
        Regroup(before, SettingTokens(o, sc, ms[i], depth + 1), [], MemberTokens(o, sc, ms[i + 1..], depth));
        i := i + 1;
      }
    }

    // __config_write_setting
    method WriteSetting(o: Options, sc: Scanner, s: Setting, depth: nat)
      modifies this
      ensures out == old(out) + SettingTokens(o, sc, s, depth)
      decreases s, 3
    {
      ghost var before := out;
      if s.name.Some? {
        Put(sc.word(s.name.value));
        Put([TEquals]);
      }
      ghost var named := if s.name.Some? then sc.word(s.name.value) + [TEquals] else [];
      assert out == before + named;
      WriteValue(o, sc, s.value, depth);
      if depth > 0 {
        if o.semicolons {
          Put([TSemicolon]);
        }
      }
      ghost var sep := if depth > 0 && o.semicolons then [TSemicolon] else [];
      assert out == before + named + ValueTokens(o, sc, s.value, depth) + sep;
      Regroup(before, named, ValueTokens(o, sc, s.value, depth), sep);
    }

    // config_write
    method WriteConfig(o: Options, sc: Scanner, root: Setting)
      modifies this
      ensures out == old(out) + ConfigTokens(o, sc, root)
    {
      WriteSetting(o, sc, root, 0);
    }
  }

  lemma Regroup(a: seq<Token>, b: seq<Token>, c: seq<Token>, d: seq<Token>)
    ensures (a + b + c) + d == a + (b + c + d)
    ensures c == [] ==> (a + b) + d == a + (b + d)
  {
  }
}
