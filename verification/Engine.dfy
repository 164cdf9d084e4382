// The engine that the generator is: the recurrence, the output and the seeding with all their
// numbers, written down apart from the code.
module Engine {
  import opened Words
  import opened Recurrence

  // What is made of a word and the bits of two others.
  function Twisted(m: bv32, y: bv32): bv32
  {
    m ^ (y >> 1) ^ (if y & 1 == 0 then 0 else 0x9908b0df)
  }

  // The word that follows, from the words 624, 623 and 227 places before it.
  function Following(u: bv32, l: bv32, m: bv32): bv32
  {
    Twisted(m, (u & 0x80000000) | (l & 0x7fffffff))
  }

  // A sequence of words that starts with these 624 and follows the recurrence.
  ghost predicate Generates(start: seq<bv32>, xs: seq<bv32>)
  {
    && |start| == 624 <= |xs| && xs[..624] == start
    && forall k {:trigger xs[k + 624]} :: 0 <= k < |xs| - 624 ==>
         xs[k + 624] == Following(xs[k], xs[k + 1], xs[k + 397])
  }

  function Output1(x: bv32): bv32 { x ^ (x >> 11) }

  function Output2(x: bv32): bv32 { x ^ ((x << 7) & 0x9d2c5680) }

  function Output3(x: bv32): bv32 { x ^ ((x << 15) & 0xefc60000) }

  function Output4(x: bv32): bv32 { x ^ (x >> 18) }

  // The number put out for a word of the sequence.
  function Output(x: bv32): bv32
  {
    Output4(Output3(Output2(Output1(x))))
  }

  lemma JoinIs(u: bv32, l: bv32)
    ensures Join(u, l) == (u & 0x80000000) | (l & 0x7fffffff)
  {
  }

  lemma TwistedEven(m: bv32, y: bv32)
    requires y & 1 == 0
    ensures Twisted(m, y) == Plus(m, y >> 1)
    ensures Twist(y) == y >> 1
  {
  }

  lemma TwistedOdd(m: bv32, y: bv32)
    requires y & 1 != 0
    ensures Twisted(m, y) == Plus(m, (y >> 1) ^ MATRIX_A)
    ensures Twist(y) == (y >> 1) ^ MATRIX_A
  {
  }

  lemma TwistedIs(m: bv32, y: bv32)
    ensures Plus(m, Twist(y)) == Twisted(m, y)
  {
    hide Plus, Twist, Twisted;
    if y & 1 == 0 {
      TwistedEven(m, y);
    } else {
      TwistedOdd(m, y);
    }
  }

  lemma FollowingIs(u: bv32, l: bv32, m: bv32)
    ensures Following(u, l, m) == Mingle(m, u, l)
  {
    hide Join, Twist, Plus, Twisted;
    JoinIs(u, l);
    TwistedIs(m, Join(u, l));
  }

  lemma StagesAre(x: bv32)
    ensures Output1(x) == T1(x) && Output2(x) == T2(x) && Output3(x) == T3(x) && Output4(x) == T4(x)
  {
  }

  lemma OutputIs(x: bv32)
    ensures Output(x) == Temper(x)
  {
    hide Output1, Output2, Output3, Output4, T1, T2, T3, T4;
    StagesAre(x);
    StagesAre(T1(x));
    StagesAre(T2(T1(x)));
    StagesAre(T3(T2(T1(x))));
  }

  // The first n words.
  function FirstWords(start: seq<bv32>, n: nat): (xs: seq<bv32>)
    requires |start| == N
    ensures |xs| == n && forall i {:trigger xs[i]} :: 0 <= i < n ==> xs[i] == X(start, i)
  {
    seq(n, i requires 0 <= i < n => X(start, i))
  }

  lemma FirstWordsGenerate(start: seq<bv32>, n: nat)
    requires |start| == 624 <= n
    ensures Generates(start, FirstWords(start, n))
  {
    hide Following;
    var xs := FirstWords(start, n);
    forall k | 0 <= k < n - 624
      ensures xs[k + 624] == Following(xs[k], xs[k + 1], xs[k + 397])
    {
      assert X(start, k + 624) == Mingle(X(start, k + 397), X(start, k), X(start, k + 1));
      FollowingIs(xs[k], xs[k + 1], xs[k + 397]);
    }
    assert forall i :: 0 <= i < 624 ==> xs[i] == start[i];
  }

  // There is one such sequence of each length, and it is the one that the model computes with.
  lemma {:induction false} OneSequence(start: seq<bv32>, xs: seq<bv32>, i: nat)
    requires Generates(start, xs) && i < |xs|
    ensures xs[i] == X(start, i)
    decreases i
  {
    hide Following;
    if i < 624 {
      assert xs[i] == xs[..624][i];
    } else {
      var k := i - 624;
      OneSequence(start, xs, k);
      OneSequence(start, xs, k + 1);
      OneSequence(start, xs, k + 397);
      FollowingIs(xs[k], xs[k + 1], xs[k + 397]);
      assert xs[k + 624] == Following(xs[k], xs[k + 1], xs[k + 397]);
    }
  }

  // y is number n that the engine puts out, counted from 1, if it starts with these words.
  ghost predicate PutsOut(start: seq<bv32>, n: nat, y: bv32)
  {
    exists xs :: Generates(start, xs) && |xs| == 624 + n && n > 0 && Output(xs[623 + n]) == y
  }

  lemma NumberDrawn(start: seq<bv32>, n: nat)
    requires |start| == 624 && n > 0
    ensures PutsOut(start, n, Temper(X(start, 623 + n)))
  {
    hide Output, Temper;
    FirstWordsGenerate(start, 624 + n);
    OutputIs(X(start, 623 + n));
  }

  lemma OneNumber(start: seq<bv32>, n: nat, y: bv32, z: bv32)
    requires PutsOut(start, n, y) && PutsOut(start, n, z)
    ensures y == z
  {
    hide Generates, Output;
    var xs :| Generates(start, xs) && |xs| == 624 + n && Output(xs[623 + n]) == y;
    var ys :| Generates(start, ys) && |ys| == 624 + n && Output(ys[623 + n]) == z;
    OneSequence(start, xs, 623 + n);
    OneSequence(start, ys, 623 + n);
  }

  // ---------- Seeding ----------

  lemma SuccessorCounts(b: bv32)
    requires b < 1024
    ensures Successor(b) as int == b as int + 1
  {
  }

  // The word for a count is the count.
  lemma {:induction false} CountIs(i: nat)
    requires i <= 1024
    ensures Count(i) as int == i
  {
    if i > 0 {
      CountIs(i - 1);
      SuccessorCounts(Count(i - 1));
    }
  }

  // What a word becomes: from the one before it and its number; by a key; and without one.
  function SeedFrom(v: bv32, c: bv32): bv32 { 1812433253 * (v ^ (v >> 30)) + c }

  function KeyFrom(w: bv32, v: bv32, k: bv32, c: bv32): bv32 { (w ^ ((v ^ (v >> 30)) * 1664525)) + k + c }

  function PlainFrom(w: bv32, v: bv32, c: bv32): bv32 { (w ^ ((v ^ (v >> 30)) * 1566083941)) - c }

  lemma SeedFromIs(v: bv32, c: bv32)
    ensures SeedWord(v, c) == SeedFrom(v, c)
  {
  }

  lemma KeyFromIs(w: bv32, v: bv32, k: bv32, c: bv32)
    ensures KeyWord(w, v, k, c) == KeyFrom(w, v, k, c)
  {
  }

  lemma PlainFromIs(w: bv32, v: bv32, c: bv32)
    ensures PlainWord(w, v, c) == PlainFrom(w, v, c)
  {
  }

  // The words seeded by s, one after the other.
  ghost predicate Seeds(s: bv32, w: seq<bv32>)
  {
    && |w| == 624 && w[0] == s
    && forall i {:trigger w[i]} :: 0 < i < 624 ==> w[i] == SeedFrom(w[i - 1], Count(i))
  }

  lemma SeedingIs(s: bv32)
    ensures Seeds(s, Seeded(s))
  {
    hide SeedWord, SeedFrom;
    var w := Seeded(s);
    forall i | 0 < i < 624
      ensures w[i] == SeedFrom(w[i - 1], Count(i))
    {
      SeedFromIs(w[i - 1], Count(i));
    }
  }

  // The first words of the default seed.
  lemma SeedingExample()
    ensures Seeded(5489)[..4] == [5489, 1301868182, 2938499221, 2950281878]
  {
    assert SeedAt(5489, 3) == 2950281878;
  }

  // Place k on a walk around n places.
  function Around(n: nat, k: nat): (p: nat)
    requires n > 0
    ensures p < n
    decreases k
  {
    if k < n then k else Around(n, k - n)
  }

  lemma {:induction false} AroundMoves(n: nat, k: nat)
    requires n > 0
    ensures Around(n, k + 1) == if Around(n, k) + 1 >= n then 0 else Around(n, k) + 1
    decreases k
  {
    if k >= n {
      AroundMoves(n, k - n);
    }
  }

  // One round of the walk over the words 1 to 623: word p becomes x, and word 0 what word 623
  // becomes.
  function Round(w: seq<bv32>, p: nat, x: bv32): (r: seq<bv32>)
    requires |w| == 624 && 1 <= p < 624
    ensures |r| == 624
  {
    if p == 623 then [x] + w[1..623] + [x] else w[..p] + [x] + w[p + 1..]
  }

  function Mixings(key: seq<bv32>): nat
  {
    if |key| > 624 then |key| else 624
  }

  // The words after k rounds. The first ones, at least 624 and as many as the key is long, mix
  // in the key; both the walk and the key start over at their ends.
  function Mixed(key: seq<bv32>, k: nat): (w: seq<bv32>)
    requires key != []
    ensures |w| == 624
  {
    if k == 0 then Seeded(19650218)
    else
      var w := Mixed(key, k - 1);
      var p := 1 + Around(623, k - 1);
      if k <= Mixings(key) then
        var j := Around(|key|, k - 1);
        Round(w, p, KeyFrom(w[p], w[p - 1], key[j], Count(j)))
      else Round(w, p, PlainFrom(w[p], w[p - 1], Count(p)))
  }

  lemma RoundIs(w: seq<bv32>, p: nat, x: bv32)
    requires |w| == 624 && 1 <= p < 624
    ensures Round(w, p, x) == Replaced(w, p, x)
  {
  }

  // One more round that mixes in the key.
  lemma KeyMixes(key: seq<bv32>, k: nat)
    requires key != [] && k < Mixings(key)
    ensures var w, p, j := Mixed(key, k), 1 + Around(623, k), Around(|key|, k);
      Mixed(key, k + 1) == Replaced(w, p, KeyWord(w[p], w[p - 1], key[j], Count(j)))
  {
    hide KeyWord, KeyFrom, Round, Replaced, Around;
    var w, p, j := Mixed(key, k), 1 + Around(623, k), Around(|key|, k);
    KeyFromIs(w[p], w[p - 1], key[j], Count(j));
    RoundIs(w, p, KeyFrom(w[p], w[p - 1], key[j], Count(j)));
  }

  lemma {:induction false} KeyRoundsAre(key: seq<bv32>, k: nat)
    requires key != [] && k <= Mixings(key)
    ensures var n := Mixings(key);
      KeyRounds(Mixed(key, k), key, 1 + Around(623, k), Around(|key|, k), n - k)
      == (Mixed(key, n), 1 + Around(623, n))
    decreases Mixings(key) - k
  {
    hide KeyWord, Mixed, Replaced, Around, Count;
    if k < Mixings(key) {
      KeyMixes(key, k);
      AroundMoves(623, k);
      AroundMoves(|key|, k);
      KeyRoundsAre(key, k + 1);
    }
  }

  lemma {:induction false} PlainRoundsAre(key: seq<bv32>, k: nat, n: nat)
    requires key != [] && Mixings(key) <= k <= n
    ensures PlainRounds(Mixed(key, k), 1 + Around(623, k), n - k) == Mixed(key, n)
    decreases n - k
  {
    hide PlainWord, PlainFrom, Round, Replaced;
    if k < n {
      var w, p := Mixed(key, k), 1 + Around(623, k);
      AroundMoves(623, k);
      PlainFromIs(w[p], w[p - 1], Count(p));
      RoundIs(w, p, PlainFrom(w[p], w[p - 1], Count(p)));
      PlainRoundsAre(key, k + 1, n);
    }
  }

  lemma KeyStarts(key: seq<bv32>)
    requires key != []
    ensures Mixed(key, 0) == Seeded(19650218) && Around(623, 0) == 0 && Around(|key|, 0) == 0
  {
  }

  lemma KeyingUnfolds(key: seq<bv32>)
    requires key != []
    ensures var mixed := KeyRounds(Seeded(19650218), key, 1, 0, Mixings(key));
      SeededByKey(key) == PlainRounds(mixed.0, mixed.1, 623)[0 := 0x80000000]
  {
    hide KeyRounds, PlainRounds, Seeded;
  }

  lemma KeyRoundsWhole(key: seq<bv32>)
    requires key != []
    ensures KeyRounds(Seeded(19650218), key, 1, 0, Mixings(key))
         == (Mixed(key, Mixings(key)), 1 + Around(623, Mixings(key)))
  {
    hide Mixed, KeyRounds, Around, Seeded, Mixings;
    KeyStarts(key);
    KeyRoundsAre(key, 0);
  }

  // Seeding by a key: its rounds, 623 more without it, and the top bit of word 0.
  lemma KeyingIs(key: seq<bv32>)
    requires key != []
    ensures SeededByKey(key) == Mixed(key, Mixings(key) + 623)[0 := 0x80000000]
  {
    hide Mixed, KeyRounds, PlainRounds, Around, Seeded, SeededByKey, Mixings;
    KeyingUnfolds(key);
    KeyRoundsWhole(key);
    PlainRoundsAre(key, Mixings(key), Mixings(key) + 623);
  }
}
