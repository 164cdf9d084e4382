// How paths are cut up and numbers in them are read, said in plain terms.
module PathTerms {
  import opened Arena
  import opened Paths
  import opened Lookup

  // A segment goes up to a colon, a slash, or the end.
  lemma SegmentStops(s: string)
    ensures Head(s) <= s && forall i :: 0 <= i < |Head(s)| ==> s[i] != ':' && s[i] != '/'
    ensures |Head(s)| < |s| ==> s[|Head(s)|] == ':' || s[|Head(s)|] == '/'
  {
  }

  // However often they are repeated, separators stand for one.
  lemma SeparatorsMerge(a: string, c: char, b: string)
    requires c == ':' || c == '/'
    ensures Segments([c] + b) == Segments(b)
    ensures a != "" && (forall i :: 0 <= i < |a| ==> a[i] != ':' && a[i] != '/') ==>
      Segments(a + [c] + b) == [a] + Segments(b)
  {
    assert ([c] + b)[1..] == b;
    if a != "" && forall i :: 0 <= i < |a| ==> a[i] != ':' && a[i] != '/' {
      assert a + [c] + b == a + ([c] + b);
      SegmentsOfHead(a, [c] + b);
    }
  }

  // The white space that atoi skips: blank, tab, line feed, vertical tab, form feed, return.
  predicate Blank(s: string)
  {
    forall i :: 0 <= i < |s| ==> s[i] as int in {32, 9, 10, 11, 12, 13}
  }

  predicate NoDigit(t: string)
  {
    t == "" || t[0] < '0' || t[0] > '9'
  }

  lemma {:induction false} BlanksSkipped(s: string, t: string)
    requires Blank(s)
    ensures Atoi(s + t) == Atoi(t)
  {
    if s == "" {
      assert s + t == t;
    } else {
      assert (s + t)[1..] == s[1..] + t;
      BlanksSkipped(s[1..], t);
    }
  }

  lemma NumberRead(n: nat, t: string)
    requires NoDigit(t)
    ensures Digits(Decimal(n) + t, 0) == n
  {
    DigitsConcat(Decimal(n), t, 0);
    DigitsOfDecimal(n);
  }

  // Where no digit follows, not even after a sign, the number is 0.
  lemma NoNumber(t: string)
    requires NoDigit(t) && (t == "" || (t[0] as int !in {32, 9, 10, 11, 12, 13} && t[0] != '-' && t[0] != '+'))
    ensures Atoi(t) == 0
  {
  }

  lemma SignRead(d: string, n: int)
    requires d != "" && IsDigit(d[0]) && Digits(d, 0) == n
    ensures Atoi(d) == n && Atoi(['-'] + d) == 0 - n && Atoi(['+'] + d) == n
  {
    assert (['-'] + d)[1..] == d && (['+'] + d)[1..] == d;
  }

  // A number is read after white space and one sign, and up to the first other character.
  lemma AtoiReads(s: string, n: nat, t: string)
    requires Blank(s) && NoDigit(t)
    ensures Atoi(s + (Decimal(n) + t)) == n
    ensures Atoi(s + (['-'] + (Decimal(n) + t))) == 0 - n
    ensures Atoi(s + (['+'] + (Decimal(n) + t))) == n
  {
    hide Atoi, Digits, Blank;
    var d := Decimal(n) + t;
    NumberRead(n, t);
    assert d[0] == Decimal(n)[0];
    SignRead(d, n);
    BlanksSkipped(s, d);
    BlanksSkipped(s, ['-'] + d);
    BlanksSkipped(s, ['+'] + d);
  }

  lemma DecimalMore(n: nat)
    requires n >= 10
    ensures Decimal(n) == Decimal(n / 10) + ["0123456789"[n % 10]]
  {
    LastDigit(n % 10);
  }

  lemma LastDigit(d: nat)
    requires d < 10
    ensures Decimal(d) == ["0123456789"[d]] && ('0' as int + d) as char == "0123456789"[d]
  {
    match d
    case 0 => case 1 => case 2 => case 3 => case 4 => case 5 => case 6 => case 7 => case 8 => case 9 =>
  }

  // A negative index finds nothing, unless there are more than 2147483648 elements.
  lemma NegativeIndex(ns: seq<Node>, x: nat, n: nat)
    requires Sound(ns) && x < |ns| && 0 < n <= 0x8000_0000 && |ns[x].kids| <= 0x8000_0000
    ensures Follow(ns, x, "[-" + Decimal(n) + "]").None?
  {
    hide Atoi, Decimal;
    var seg := "[-" + Decimal(n) + "]";
    assert seg[1..] == "" + (['-'] + (Decimal(n) + "]"));
    AtoiReads("", n, "]");
    assert (0 - n) % 0x1_0000_0000 == 0x1_0000_0000 - n;
  }

  // The names agree up to this place, and there the first one ends or is smaller.
  predicate LessAt(a: string, b: string, k: int)
  {
    && 0 <= k <= |a| && k < |b| && a[..k] == b[..k]
    && (k == |a| || a[k] < b[k])
  }

  // The comparison of names is alphabetical.
  lemma {:induction false} DifferenceIsOrder(a: string, b: string)
    ensures Difference(a, b) < 0 <==> exists k :: LessAt(a, b, k)
    ensures Difference(a, b) > 0 <==> exists k :: LessAt(b, a, k)
  {
    if a == "" || b == "" || a[0] != b[0] {
      SmallerAtOnce(a, b);
      SmallerAtOnce(b, a);
    } else {
      DifferenceIsOrder(a[1..], b[1..]);
      SmallerLater(a, b);
      SmallerLater(b, a);
    }
  }

  lemma SmallerAtOnce(a: string, b: string)
    requires a == "" || b == "" || a[0] != b[0]
    ensures (exists k :: LessAt(a, b, k)) <==> LessAt(a, b, 0)
  {
    if k :| LessAt(a, b, k) {
      assert k > 0 ==> a[..k][0] == b[..k][0];
    }
  }

  lemma SmallerLater(a: string, b: string)
    requires a != "" && b != "" && a[0] == b[0]
    ensures (exists k :: LessAt(a, b, k)) <==> exists k :: LessAt(a[1..], b[1..], k)
  {
    if k :| LessAt(a, b, k) {
      assert a[1..][..k - 1] == a[..k][1..] && b[1..][..k - 1] == b[..k][1..];
      assert LessAt(a[1..], b[1..], k - 1);
    }
    if k :| LessAt(a[1..], b[1..], k) {
      assert a[..k + 1] == [a[0]] + a[1..][..k] && b[..k + 1] == [b[0]] + b[1..][..k];
      assert LessAt(a, b, k + 1);
    }
  }
}
