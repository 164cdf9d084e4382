// Reading back what was written.
module Escapes {
  import opened Settings
  import opened ScanRules

  lemma PlainRunOf(c: char, t: string)
    requires IsPlain(c)
    ensures PlainRun([c] + t) == 1 + PlainRun(t)
  {
    assert ([c] + t)[1..] == t;
  }

  lemma ChopOf(c: char, t: string)
    requires c != '\0'
    ensures Chop([c] + t) == [c] + Chop(t)
  {
    assert ([c] + t)[1..] == t;
  }

  lemma PlainByte(c: char, t: string, collected: string, result: Option<(string, string)>)
    requires IsPlain(c) && c != '\0' && Reads(t, collected + [c], result)
    ensures Reads([c] + t, collected, result)
  {
    var s, n := [c] + t, PlainRun(t);
    PlainRunOf(c, t);
    var more := Chop(t[..n]);
    assert s[..1 + n] == [c] + t[..n];
    ChopOf(c, t[..n]);
    assert s[1 + n..] == t[n..];
    assert collected + ([c] + more) == collected + [c] + more;
    ScanRule(s, collected, Plain, 1 + n, [c] + more, result);
    if n == 0 {
      assert t[n..] == t && more == "";
      assert collected + [c] + more == collected + [c];
    } else {
      ScanRule(t, collected + [c], Plain, n, more, result);
    }
  }

  // The scanner has one rule for each escape sequence of the writer.
  lemma EscapeRule(c: char, t: string) returns (rule: Rule)
    requires IsByte(c) && !(c >= ' ' && IsPlain(c))
    ensures var s := EscapeChar(c) + t;
      rule != Close && Pick(s) == rule && MatchLength(rule, s) == |EscapeChar(c)|
    ensures Appended(rule, EscapeChar(c)) == [c]
  {
    rule := if c == '"' then Quote else if c == '\\' then Backslash else if c == '\n' then Newline
      else if c == '\r' then Return else if c == (12 as char) then FormFeed else if c == '\t' then Tab
      else HexByte;
  }

  lemma EscapedByte(c: char, t: string, collected: string, result: Option<(string, string)>)
    requires IsByte(c) && c != '\0' && Reads(t, collected + [c], result)
    ensures Reads(EscapeChar(c) + t, collected, result)
  {
    if c >= ' ' && IsPlain(c) {
      ghost var e := EscapeChar(c);
      PlainSequence(e, c, t, collected, result);
    } else {
      EscapeSequence(c, t, collected, result);
    }
  }

  lemma PlainSequence(e: string, c: char, t: string, collected: string, result: Option<(string, string)>)
    requires e == [c] && IsPlain(c) && c != '\0' && Reads(t, collected + [c], result)
    ensures Reads(e + t, collected, result)
  {
    PlainByte(c, t, collected, result);
  }

  lemma EscapeSequence(c: char, t: string, collected: string, result: Option<(string, string)>)
    requires IsByte(c) && c != '\0' && !(c >= ' ' && IsPlain(c)) && Reads(t, collected + [c], result)
    ensures Reads(EscapeChar(c) + t, collected, result)
  {
    var rule := EscapeRule(c, t);
    WholeRule(EscapeChar(c), t, collected, rule, c, result);
  }

  // One rule that matches all of e and stands for the byte c.
  lemma WholeRule(e: string, t: string, collected: string, rule: Rule, c: char, result: Option<(string, string)>)
    requires e != "" && Pick(e + t) == rule != Close && MatchLength(rule, e + t) == |e|
    requires c != '\0' && (rule == HexByte ==> |e| == 4 && IsHex(e[2]) && IsHex(e[3])) && Appended(rule, e) == [c]
    requires Reads(t, collected + [c], result)
    ensures Reads(e + t, collected, result)
  {
    assert (e + t)[|e|..] == t && (e + t)[..|e|] == e;
    ChopOf(c, "");
    ScanRule(e + t, collected, rule, |e|, [c], result);
  }

  // Scanning what the writer wrote for any bytes gives them back up to the first NUL, and
  // consumes exactly through the closing quote.
  lemma {:induction false} EscapedReads(s: string, rest: string, collected: string)
    requires forall i :: 0 <= i < |s| ==> IsByte(s[i])
    ensures Reads(Escape(s) + "\"" + rest, collected, Some((collected + Chop(s), rest)))
  {
    if s == "" || s[0] == '\0' {
      assert Escape(s) + "\"" + rest == "\"" + rest && ("\"" + rest)[1..] == rest;
      ScanClose("\"" + rest, collected);
      assert collected + Chop(s) == collected;
    } else {
      var t := Escape(s[1..]) + "\"" + rest;
      EscapedReads(s[1..], rest, collected + [s[0]]);
      assert collected + [s[0]] + Chop(s[1..]) == collected + Chop(s);
      EscapedByte(s[0], t, collected, Some((collected + Chop(s), rest)));
      assert Escape(s) + "\"" + rest == EscapeChar(s[0]) + t;
    }
  }

  lemma ScanEscaped(s: string, rest: string)
    requires forall i :: 0 <= i < |s| ==> IsByte(s[i])
    ensures Scan(Escape(s) + "\"" + rest, "") == Some((Chop(s), rest))
  {
    EscapedReads(s, rest, "");
    assert "" + Chop(s) == Chop(s);
    ReadsOne(Escape(s) + "\"" + rest, "", Some((Chop(s), rest)));
  }

  // A string value survives being written and read exactly when it holds no NUL.
  lemma EscapeRoundTrip(s: string, rest: string)
    requires forall i :: 0 <= i < |s| ==> IsByte(s[i])
    ensures Scan(Escape(s) + "\"" + rest, "") == Some((s, rest)) <==> '\0' !in s
  {
    ScanEscaped(s, rest);
    ChopIsPrefix(s);
    if '\0' !in s {
      assert s[..|s|] == s;
      ChopUnique(s, |s|);
    }
  }

  // Whatever text a string was read from, it is a C string.
  lemma {:induction false} ScannedIsText(s: string, collected: string)
    requires IsText(collected) && forall i :: 0 <= i < |s| ==> IsByte(s[i])
    requires Scan(s, collected).Some?
    ensures IsText(Scan(s, collected).value.0)
    decreases |s|
  {
    var rule := Pick(s);
    if rule != Close {
      var n := MatchLength(rule, s);
      AppendedIsText(s, rule, n);
      ScannedIsText(s[n..], collected + Chop(Appended(rule, s[..n])));
    }
  }

  lemma AppendedIsText(s: string, rule: Rule, n: nat)
    requires forall i :: 0 <= i < |s| ==> IsByte(s[i])
    requires s != "" && Pick(s) == rule && MatchLength(rule, s) == n
    ensures IsText(Chop(Appended(rule, s[..n])))
  {
    var a := Appended(rule, s[..n]);
    ChopIsPrefix(a);
    assert forall i :: 0 <= i < |Chop(a)| ==> Chop(a)[i] == a[i] && Chop(a)[i] in Chop(a);
  }

  // So reading, writing and reading again changes nothing.
  lemma ReadWriteRead(s: string, rest: string)
    requires forall i :: 0 <= i < |s| ==> IsByte(s[i])
    requires Scan(s, "").Some?
    ensures var text := Scan(s, "").value.0;
      IsText(text) && Scan(Escape(text) + "\"" + rest, "") == Some((text, rest))
  {
    ScannedIsText(s, "");
    var text := Scan(s, "").value.0;
    EscapeRoundTrip(text, rest);
  }

  // ---------- The forms of an escape ----------

  // Both cases of a hexadecimal digit have its value.
  lemma DigitValues(n: nat)
    requires n < 16
    ensures var lower, upper := "0123456789abcdef"[n], "0123456789ABCDEF"[n];
      IsHex(lower) && HexValue(lower) == n && IsHex(upper) && HexValue(upper) == n
  {
    match n
    case 0 => case 1 => case 2 => case 3 => case 4 => case 5 => case 6 => case 7 =>
    case 8 => case 9 => case 10 => case 11 => case 12 => case 13 => case 14 => case 15 =>
  }

  // A byte can be written with x or X and with digits of either case.
  lemma HexByteRead(x: char, a: char, b: char, m: nat, n: nat, rest: string, collected: string)
    requires (x == 'x' || x == 'X') && m < 16 && n < 16 && 16 * m + n > 0
    requires a == "0123456789abcdef"[m] || a == "0123456789ABCDEF"[m]
    requires b == "0123456789abcdef"[n] || b == "0123456789ABCDEF"[n]
    ensures Scan(['\\', x, a, b] + rest, collected) == Scan(rest, collected + [(16 * m + n) as char])
  {
    hide IsHex, HexValue, Scan;
    DigitValues(m);
    DigitValues(n);
    HexByteScan(x, a, b, rest, collected);
  }

  lemma HexByteScan(x: char, a: char, b: char, rest: string, collected: string)
    requires (x == 'x' || x == 'X') && IsHex(a) && IsHex(b) && 16 * HexValue(a) + HexValue(b) > 0
    ensures Scan(['\\', x, a, b] + rest, collected)
         == Scan(rest, collected + [(16 * HexValue(a) + HexValue(b)) as char])
  {
    hide IsHex, HexValue, PlainRun;
    var e, c := ['\\', x, a, b], (16 * HexValue(a) + HexValue(b)) as char;
    var s := e + rest;
    assert s[..4] == e && s[4..] == rest;
    assert Pick(s) == HexByte && MatchLength(HexByte, s) == 4;
    assert Appended(HexByte, e) == [c];
    ChopOf(c, "");
    assert [c] + "" == [c];
  }

  // What the writer makes of a byte: quotes and backslashes are preceded by a backslash, four
  // control characters have letters, and the other ones below the space are written as \x and
  // two digits, in capitals. Nothing else is escaped.
  lemma EscapeForms(c: char)
    requires IsByte(c)
    ensures c == '"' ==> EscapeChar(c) == "\\\""
    ensures c == '\\' ==> EscapeChar(c) == "\\\\"
    ensures c as int == 10 ==> EscapeChar(c) == "\\n"
    ensures c as int == 13 ==> EscapeChar(c) == "\\r"
    ensures c as int == 12 ==> EscapeChar(c) == "\\f"
    ensures c as int == 9 ==> EscapeChar(c) == "\\t"
    ensures c as int < 32 && c as int !in {9, 10, 12, 13} ==>
      EscapeChar(c) == ['\\', 'x', "01"[c as int / 16], "0123456789ABCDEF"[c as int % 16]]
    ensures c as int >= 32 && c != '"' && c != '\\' ==> EscapeChar(c) == [c]
  {
    if c as int < 32 && c as int !in {9, 10, 12, 13} {
      Capitals(c as int / 16);
      Capitals(c as int % 16);
    }
  }

  lemma Capitals(n: nat)
    requires n < 16
    ensures HexDigit(n) == "0123456789ABCDEF"[n] && (n < 2 ==> HexDigit(n) == "01"[n])
  {
    match n
    case 0 => case 1 => case 2 => case 3 => case 4 => case 5 => case 6 => case 7 =>
    case 8 => case 9 => case 10 => case 11 => case 12 => case 13 => case 14 => case 15 =>
  }

  // A backslash before anything else stands for itself.
  lemma LoneBackslash(c: char, rest: string, collected: string)
    requires c !in {'n', 'r', 't', 'f', '\\', '"', 'x', 'X'}
    ensures Scan(['\\', c] + rest, collected) == Scan([c] + rest, collected + "\\")
  {
    var s := ['\\', c] + rest;
    assert s[1..] == [c] + rest && s[0] == '\\' && s[1] == c;
    assert Pick(s) == Lone && MatchLength(Lone, s) == 1;
    ChopOf('\\', "");
    assert ['\\'] + "" == "\\";
  }
}
