// String values as text: how the writer escapes them, and the rules by which the scanner
// reads them back. A character is a byte, that is, a char below 256.
module ScanRules {
  import opened Settings
  import opened Sealing

  // ---------- C strings ----------

  predicate IsByte(c: char)
  {
    c as int < 256
  }

  predicate IsText(s: string)
  {
    forall i :: 0 <= i < |s| ==> IsByte(s[i]) && s[i] != '\0'
  }

  // What a C function that takes a string sees of these bytes.
  function Chop(s: string): string
  {
    if s == "" || s[0] == '\0' then "" else [s[0]] + Chop(s[1..])
  }

  lemma ChopIsPrefix(s: string)
    ensures Chop(s) <= s && '\0' !in Chop(s)
    ensures |Chop(s)| < |s| ==> s[|Chop(s)|] == '\0'
  {
  }

  lemma ChopUnique(s: string, n: nat)
    requires n <= |s| && '\0' !in s[..n] && (n < |s| ==> s[n] == '\0')
    ensures Chop(s) == s[..n]
  {
    ChopIsPrefix(s);
  }

  // ---------- The writer ----------

  function HexDigit(n: int): (c: char)
    requires 0 <= n < 16
    ensures IsHex(c) && HexValue(c) == n
  {
    if n < 10 then ('0' as int + n) as char else ('A' as int + n - 10) as char
  }

  function EscapeChar(c: char): (r: string)
    requires IsByte(c)
  {
    if c == '"' || c == '\\' then ['\\', c]
    else if c == '\n' then "\\n"
    else if c == '\r' then "\\r"
    else if c == (12 as char) then "\\f"
    else if c == '\t' then "\\t"
    else if c >= ' ' then [c]
    else "\\x" + [HexDigit(c as int / 16), HexDigit(c as int % 16)]
  }

  function Escape(s: string): string
    requires forall i :: 0 <= i < |s| ==> IsByte(s[i])
  {
    if s == "" || s[0] == '\0' then "" else EscapeChar(s[0]) + Escape(s[1..])
  }

  lemma EscapeTail(s: string, p: nat)
    requires p < |s| && s[p] != '\0' && forall i :: 0 <= i < |s| ==> IsByte(s[i])
    ensures Escape(s[p..]) == EscapeChar(s[p]) + Escape(s[p + 1..])
  {
    assert s[p..][1..] == s[p + 1..];
  }

  // ---------- The rules of the scanner inside a string ----------

  datatype Rule = Plain | Newline | Return | Tab | FormFeed | Backslash | Quote | HexByte | Lone | Close

  predicate IsHex(c: char)
  {
    '0' <= c <= '9' || 'A' <= c <= 'F' || 'a' <= c <= 'f'
  }

  function HexValue(c: char): (n: int)
    requires IsHex(c)
    ensures 0 <= n < 16
  {
    if c <= '9' then c as int - '0' as int
    else if c <= 'F' then c as int - 'A' as int + 10
    else c as int - 'a' as int + 10
  }

  function RuleNumber(r: Rule): int
  {
    match r
    case Plain => 6
    case Newline => 7
    case Return => 8
    case Tab => 9
    case FormFeed => 10
    case Backslash => 11
    case Quote => 12
    case HexByte => 13
    case Lone => 14
    case Close => 15
  }

  predicate IsPlain(c: char)
  {
    c != '"' && c != '\\'
  }

  function PlainRun(s: string): (n: nat)
    ensures n <= |s| && (n < |s| ==> !IsPlain(s[n]))
    ensures forall i :: 0 <= i < n ==> IsPlain(s[i])
  {
    if s == "" || !IsPlain(s[0]) then 0 else 1 + PlainRun(s[1..])
  }

  predicate Escapes(s: string, c: char)
  {
    |s| >= 2 && s[0] == '\\' && s[1] == c
  }

  // The length of the longest prefix that matches the rule's pattern; 0 if none does.
  function MatchLength(r: Rule, s: string): (n: nat)
    ensures n <= |s|
  {
    match r
    case Plain => PlainRun(s)
    case Newline => if Escapes(s, 'n') then 2 else 0
    case Return => if Escapes(s, 'r') then 2 else 0
    case Tab => if Escapes(s, 't') then 2 else 0
    case FormFeed => if Escapes(s, 'f') then 2 else 0
    case Backslash => if Escapes(s, '\\') then 2 else 0
    case Quote => if Escapes(s, '"') then 2 else 0
    case HexByte =>
      if (Escapes(s, 'x') || Escapes(s, 'X')) && |s| >= 4 && IsHex(s[2]) && IsHex(s[3]) then 4 else 0
    case Lone => if s != "" && s[0] == '\\' then 1 else 0
    case Close => if s != "" && s[0] == '"' then 1 else 0
  }

  // The rule that applies: the longest match, and the first rule among equals.
  ghost predicate Applies(r: Rule, s: string)
  {
    && MatchLength(r, s) > 0
    && forall q {:trigger MatchLength(q, s)} ::
         MatchLength(q, s) < MatchLength(r, s)
         || (MatchLength(q, s) == MatchLength(r, s) && RuleNumber(r) <= RuleNumber(q))
  }

  function Pick(s: string): (r: Rule)
    requires s != ""
    ensures MatchLength(r, s) > 0
  {
    if s[0] == '"' then Close
    else if IsPlain(s[0]) then Plain
    else if Escapes(s, 'n') then Newline
    else if Escapes(s, 'r') then Return
    else if Escapes(s, 't') then Tab
    else if Escapes(s, 'f') then FormFeed
    else if Escapes(s, '\\') then Backslash
    else if Escapes(s, '"') then Quote
    else if MatchLength(HexByte, s) > 0 then HexByte
    else Lone
  }

  lemma PickApplies(s: string)
    requires s != ""
    ensures Applies(Pick(s), s)
  {
  }

  // What the rule's action appends, as a C string.
  function Appended(r: Rule, yytext: string): string
    requires r == HexByte ==> |yytext| == 4 && IsHex(yytext[2]) && IsHex(yytext[3])
  {
    match r
    case Plain => yytext
    case Newline => "\n"
    case Return => "\r"
    case Tab => "\t"
    case FormFeed => [12 as char]
    case Backslash => "\\"
    case Quote => "\""
    case HexByte => [(HexValue(yytext[2]) * 16 + HexValue(yytext[3])) as char]
    case Lone => "\\"
    case Close => ""
  }

  // The text of the string whose opening quote has been read, after what was collected, and
  // what is left after the closing quote; None if the input ends first.
  function Scan(s: string, collected: string): (r: Option<(string, string)>)
    ensures r.Some? ==> |r.value.1| < |s| && s[|s| - |r.value.1|..] == r.value.1
    decreases |s|
  {
    if s == "" then None
    else
      var rule := Pick(s);
      var n := MatchLength(rule, s);
      if rule == Close then Some((collected, s[1..]))
      else Scan(s[n..], collected + Chop(Appended(rule, s[..n])))
  }

  // ---------- Scanning in single steps ----------

  // Scanning from here gives this; sealed, so that scans compose without being unfolded.
  ghost predicate Reads(s: string, collected: string, result: Option<(string, string)>)
  {
    forall k :: Unfold(k) ==> Scan(s, collected) == result
  }

  // Appending a piece and scanning on from there gives this.
  ghost predicate ReadsAfter(piece: string, s: string, collected: string, result: Option<(string, string)>)
  {
    forall k :: Unfold(k) ==> Reads(s, collected + Chop(piece), result)
  }

  lemma ReadsOn(piece: string, s: string, collected: string, result: Option<(string, string)>)
    requires ReadsAfter(piece, s, collected, result)
    ensures Reads(s, collected + Chop(piece), result)
  {
    assert Unfold(0);
  }

  // One rule, other than the closing quote.
  lemma ScanRule(s: string, collected: string, rule: Rule, n: nat, more: string, result: Option<(string, string)>)
    requires s != "" && Pick(s) == rule != Close && MatchLength(rule, s) == n
    requires Chop(Appended(rule, s[..n])) == more
    ensures Reads(s, collected, result) <==> Reads(s[n..], collected + more, result)
  {
    assert Unfold(0);
  }

  lemma ScanClose(s: string, collected: string)
    requires s != "" && Pick(s) == Close
    ensures Reads(s, collected, Some((collected, s[1..])))
  {
  }

  lemma ReadsOne(s: string, collected: string, result: Option<(string, string)>)
    ensures Reads(s, collected, result) <==> Scan(s, collected) == result
  {
    assert Unfold(0);
  }

  lemma ReadsUnique(s: string, collected: string, a: Option<(string, string)>, b: Option<(string, string)>)
    requires Reads(s, collected, a) && Reads(s, collected, b)
    ensures a == b
  {
    assert Unfold(0);
  }
}
