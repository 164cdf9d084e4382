// The same in memory: the writer's loop, the growing buffer that the scanner collects a
// string in, and the scanner's loop.
module Strings {
  import opened Settings
  import opened ScanRules

  // ---------- The writer ----------

  class TextStream {
    var out: string

    constructor ()
      ensures out == ""
    {
      out := "";
    }

    method Fputc(c: char)
      modifies this
      ensures out == old(out) + [c]
    {
      out := out + [c];
    }

    method Fputs(s: string)
      modifies this
      ensures out == old(out) + s
    {
      out := out + s;
    }

    method WriteByte(c: char)
      requires IsByte(c)
      modifies this
      ensures out == old(out) + EscapeChar(c)
    {
      if c == '"' || c == '\\' {
        Fputc('\\');
        Fputc(c);
      } else if c == '\n' {
        Fputs("\\n");
      } else if c == '\r' {
        Fputs("\\r");
      } else if c == (12 as char) {
        Fputs("\\f");
      } else if c == '\t' {
        Fputs("\\t");
      } else if c >= ' ' {
        Fputc(c);
      } else {
        Fputs("\\x" + [HexDigit(c as int / 16), HexDigit(c as int % 16)]);
      }
    }

    // Writes a string value in quotes.
    method WriteString(sval: Option<string>)
      requires sval.Some? ==> forall i :: 0 <= i < |sval.value| ==> IsByte(sval.value[i])
      modifies this
      ensures out == old(out) + "\"" + (if sval.Some? then Escape(sval.value) else "") + "\""
    {
      Fputc('"');
      if sval.Some? {
        var s, p := sval.value, 0;
        while p < |s| && s[p] != '\0'
          invariant p <= |s|
          invariant out + Escape(s[p..]) == old(out) + "\"" + Escape(s)
        {
          EscapeTail(s, p);
          ghost var before := out;
          WriteByte(s[p]);
          WriterTurn(before, out, EscapeChar(s[p]), Escape(s[p + 1..]));
          p := p + 1;
        }
        assert Escape(s[p..]) == "";
      }
      Fputc('"');
    }
  }

  lemma WriterTurn(before: string, after: string, piece: string, tail: string)
    requires after == before + piece
    ensures after + tail == before + (piece + tail)
  {
  }

  // ---------- The string buffer ----------

  const STRING_BLOCK_SIZE := 64

  // Rounded up to whole blocks, by clearing the low bits.
  function Blocks(n: nat): (m: nat)
    ensures n <= m < n + 64 && m % 64 == 0
  {
    var x := n + (STRING_BLOCK_SIZE - 1);
    x - x % STRING_BLOCK_SIZE
  }

  class Strbuf {
    var data: array?<char>
    var length: nat
    var capacity: nat

    // The buffer holds a terminated C string in whole blocks.
    ghost predicate Valid()
      reads this, data
    {
      && capacity % STRING_BLOCK_SIZE == 0
      && if data == null then length == 0 && capacity == 0
         else data.Length == capacity && length + 1 <= capacity && data[length] == '\0' && '\0' !in data[..length]
    }

    ghost function Contents(): string
      requires Valid()
      reads this, data
    {
      if data == null then "" else data[..length]
    }

    constructor ()
      ensures Valid() && Contents() == "" && data == null
    {
      data, length, capacity := null, 0, 0;
    }

    // Makes room for so many bytes; the old ones are kept.
    method Realloc(size: nat)
      requires size > capacity && (data == null ==> capacity == 0) && (data != null ==> data.Length == capacity)
      modifies this`data, this`capacity
      ensures data != null && fresh(data) && data.Length == capacity == size
      ensures old(data) != null ==> data[..old(capacity)] == old(data[..])
    {
      var bigger := new char[size](_ => '\0');
      if data != null {
        var i := 0;
        while i < capacity
          modifies bigger
          invariant i <= capacity && bigger[..i] == data[..i]
        {
          bigger[i] := data[i];
          i := i + 1;
        }
        assert data[..capacity] == data[..];
      }
      data, capacity := bigger, size;
    }

    // strcpy to the end of the buffer, with the terminator.
    method CopyIn(text: string, len: nat)
      requires data != null && len == |Chop(text)| && length + len + 1 <= data.Length
      modifies data
      ensures data[..length] == old(data[..length])
      ensures data[..length + len] == old(data[..length]) + Chop(text)
      ensures data[length + len] == '\0'
    {
      ChopIsPrefix(text);
      hide Chop;
      var i := 0;
      while i < len
        invariant i <= len
        invariant data[..length] == old(data[..length])
        invariant data[length..length + i] == Chop(text)[..i]
      {
        data[length + i] := text[i];
        assert data[length..length + i + 1] == data[length..length + i] + [text[i]];
        assert Chop(text)[..i + 1] == Chop(text)[..i] + [text[i]];
        i := i + 1;
      }
      data[length + len] := '\0';
      assert data[..length + len] == data[..length] + data[length..length + len];
    }

    method Append(text: string)
      requires Valid()
      modifies this, data
      ensures Valid() && Contents() == old(Contents()) + Chop(text)
      ensures data == old(data) || fresh(data)
      ensures data != null && capacity >= old(capacity)
      ensures old(capacity) >= |Contents()| + 1 ==> data == old(data) && capacity == old(capacity)
      ensures old(capacity) < |Contents()| + 1 ==> capacity < |Contents()| + 1 + 64
    {
      ghost var before := Contents();
      var len := 0;
      while len < |text| && text[len] != '\0'
        invariant len <= |text| && '\0' !in text[..len]
      {
        len := len + 1;
      }
      ChopUnique(text, len);
      ChopIsPrefix(text);
      var newlen := length + len + 1;
      if newlen > capacity {
        Realloc(Blocks(newlen));
        assert data[..length] == before;
      }
      CopyIn(text, len);
      length := length + len;
    }

    // Gives the string away and starts over.
    method Release() returns (r: array?<char>, ghost text: string)
      requires Valid()
      modifies this
      ensures r == old(data) && text == old(Contents())
      ensures r != null ==> text < r[..] && r[|text|] == '\0'
      ensures Valid() && Contents() == "" && data == null
    {
      r, text := data, Contents();
      data, length, capacity := null, 0, 0;
    }
  }

  // ---------- The scanner inside a string ----------

  // The rule that matches here: whether it closes the string, how much of the input it
  // takes, and what it appends.
  method MatchRule(input: string, pos: nat, ghost collected: string, ghost result: Option<(string, string)>)
    returns (closes: bool, n: nat, piece: string)
    requires pos < |input| && Reads(input[pos..], collected, result)
    ensures 0 < n <= |input| - pos
    ensures closes ==> n == 1 && result == Some((collected, input[pos + 1..]))
    ensures !closes ==> ReadsAfter(piece, input[pos + n..], collected, result)
  {
    ghost var s := input[pos..];
    var rule := Pick(input[pos..]);
    n := MatchLength(rule, input[pos..]);
    piece := Appended(rule, input[pos..][..n]);
    closes := rule == Close;
    if closes {
      ScanClose(s, collected);
      ReadsUnique(s, collected, result, Some((collected, s[1..])));
      assert s[1..] == input[pos + 1..];
    } else {
      assert s[n..] == input[pos + n..];
      ScanRule(s, collected, rule, n, Chop(piece), result);
    }
  }

  class StringScanner {
    const input: string
    const buffer: Strbuf
    var pos: nat

    ghost predicate Valid()
      reads this, buffer, buffer.data
    {
      pos <= |input| && buffer.Valid()
    }

    constructor (input: string)
      ensures Valid() && this.input == input && pos == 0 && buffer.Contents() == "" && fresh(buffer)
      ensures buffer.data == null
    {
      this.input, pos := input, 0;
      buffer := new Strbuf();
    }

    // scanctx_take_string: the collected text; a null buffer stands for the empty string.
    method TakeString() returns (text: string)
      requires Valid()
      modifies buffer
      ensures Valid() && buffer.Contents() == "" && buffer.data == null
      ensures text == old(buffer.Contents())
    {
      var r;
      ghost var contents;
      r, contents := buffer.Release();
      if r == null {
        return "";
      }
      var k := CStringLength(r, contents);
      text := r[..k];
    }

    // Appends a piece of text and goes past the input it was read from.
    method Collect(piece: string, n: nat, ghost result: Option<(string, string)>)
      requires Valid() && n <= |input| - pos
      requires ReadsAfter(piece, input[pos + n..], buffer.Contents(), result)
      modifies this`pos, buffer, buffer.data
      ensures Valid() && pos == old(pos) + n && Reads(input[pos..], buffer.Contents(), result)
      ensures buffer.data == old(buffer.data) || fresh(buffer.data)
    {
      ReadsOn(piece, input[pos + n..], buffer.Contents(), result);
      buffer.Append(piece);
      pos := pos + n;
    }

    // The closing quote.
    method Finish() returns (token: Option<string>)
      requires Valid() && pos < |input|
      modifies this`pos, buffer
      ensures Valid() && buffer.Contents() == "" && buffer.data == null && pos == old(pos) + 1
      ensures token == Some(old(buffer.Contents()))
    {
      pos := pos + 1;
      var text := TakeString();
      token := Some(text);
    }

    // Matches one rule and runs its action; the token is complete at the closing quote.
    method Turn(ghost result: Option<(string, string)>) returns (token: Option<string>)
      requires Valid() && pos < |input| && Reads(input[pos..], buffer.Contents(), result)
      modifies this`pos, buffer, buffer.data
      ensures Valid() && (buffer.data == old(buffer.data) || buffer.data == null || fresh(buffer.data))
      ensures pos > old(pos)
      ensures token.None? ==> Reads(input[pos..], buffer.Contents(), result)
      ensures token.Some? ==> result == Some((token.value, input[pos..])) && buffer.Contents() == ""
    {
      hide Reads, ReadsAfter;
      var closes, n, piece := MatchRule(input, pos, buffer.Contents(), result);
      if closes {
        token := Finish();
      } else {
        Collect(piece, n, result);
        token := None;
      }
    }

    // Runs the actions of the start condition up to the closing quote. The text is the
    // value of the token; None at the end of the input.
    method ScanString() returns (token: Option<string>)
      requires Valid() && buffer.Contents() == ""
      modifies this, buffer, buffer.data
      ensures Valid()
      ensures var r := Scan(old(input[pos..]), "");
        if r.Some? then token == Some(r.value.0) && input[pos..] == r.value.1 && buffer.Contents() == ""
        else token == None && pos == |input|
    {
      ghost var result := Scan(input[pos..], "");
      ReadsOne(input[pos..], "", result);
      token := None;
      while pos < |input| && token == None
        invariant Valid() && (buffer.data == old(buffer.data) || buffer.data == null || fresh(buffer.data))
        invariant token == None ==> Reads(input[pos..], buffer.Contents(), result)
        invariant token.Some? ==> result == Some((token.value, input[pos..])) && buffer.Contents() == ""
        decreases |input| - pos
      {
        token := Turn(result);
      }
      if token == None {
        ReadsOne(input[pos..], buffer.Contents(), result);
      }
    }
  }

  // strlen of a terminated buffer.
  method CStringLength(a: array<char>, ghost text: string) returns (k: nat)
    requires text < a[..] && a[|text|] == '\0' && '\0' !in text
    ensures k == |text|
  {
    k := 0;
    while a[k] != '\0'
      invariant k <= |text|
      decreases |text| - k
    {
      k := k + 1;
    }
  }
}
