// The generator in memory: the array of words, which is regenerated in place.
module Mersenne {
  import opened Words
  import opened Recurrence
  import opened LongWords
  import Engine

  // ---------- Seeding ----------

  // The array holds these words.
  ghost predicate Holds(mt: seq<Long>, w: seq<Word>)
  {
    |mt| == |w| == N && forall i :: 0 <= i < N ==> mt[i] == Widen(w[i])
  }

  function Lows(xs: seq<Long>): (ws: seq<Word>)
    ensures |ws| == |xs|
  {
    seq(|xs|, i requires 0 <= i < |xs| => Low(xs[i]))
  }

  method MakeSeedWord(v: Long, i: nat, ghost wv: Word) returns (r: Long)
    requires v == Widen(wv)
    ensures r == Widen(SeedWord(wv, Count(i)))
  {
    r := LongSeedWord(v, LongOf(i));
    SeedWordWidens(wv, LongOf(i));
    LowOfCount(i);
  }

  method MakeKeyWord(w: Long, v: Long, k: Long, j: nat, ghost ww: Word, ghost wv: Word) returns (r: Long)
    requires w == Widen(ww) && v == Widen(wv)
    ensures r == Widen(KeyWord(ww, wv, Low(k), Count(j)))
  {
    r := LongKeyWord(w, v, k, LongOf(j));
    KeyWordWidens(ww, wv, k, LongOf(j));
    LowOfCount(j);
  }

  method MakePlainWord(w: Long, v: Long, i: nat, ghost ww: Word, ghost wv: Word) returns (r: Long)
    requires w == Widen(ww) && v == Widen(wv)
    ensures r == Widen(PlainWord(ww, wv, Count(i)))
  {
    r := LongPlainWord(w, v, LongOf(i));
    PlainWordWidens(ww, wv, LongOf(i));
    LowOfCount(i);
  }

  // Stores a word and goes on to the next; at the end word 0 takes the last word.
  method Replace(mt: array<Long>, i: nat, x: Long, ghost w: seq<Word>, ghost wx: Word) returns (next: nat)
    requires mt.Length == N && Holds(mt[..], w) && 1 <= i < N && x == Widen(wx)
    modifies mt
    ensures Holds(mt[..], Replaced(w, i, wx)) && next == Next(i)
  {
    mt[i] := x;
    next := i + 1;
    if next >= N {
      mt[0] := mt[N - 1];
      next := 1;
    }
  }

  // One round that mixes in the key.
  method KeyRound(mt: array<Long>, key: seq<Long>, i: nat, j: nat,
                  ghost k: nat, ghost w: seq<Word>, ghost end: (seq<Word>, nat))
    returns (i': nat, j': nat, ghost w': seq<Word>)
    requires mt.Length == N && k > 0 && Holds(mt[..], w) && KeyLeads(w, Lows(key), i, j, k, end)
    modifies mt
    ensures Holds(mt[..], w') && KeyLeads(w', Lows(key), i', j', k - 1, end)
  {
    KeyLeadsOn(w, Lows(key), i, j, k, end);
    var x := MakeKeyWord(mt[i], mt[i - 1], key[j], j, w[i], w[i - 1]);
    ghost var wx := KeyWord(w[i], w[i - 1], Lows(key)[j], Count(j));
    w' := Replaced(w, i, wx);
    i' := Replace(mt, i, x, w, wx);
    j' := j + 1;
    if j' >= |key| {
      j' := 0;
    }
  }

  // The rounds of init_by_array that mix in the key.
  method MixKey(mt: array<Long>, key: seq<Long>, ghost start: seq<Word>, ghost end: (seq<Word>, nat)) returns (i: nat)
    requires mt.Length == N && Holds(mt[..], start) && key != []
    requires KeyLeads(start, Lows(key), 1, 0, if N > |key| then N else |key|, end)
    modifies mt
    ensures Holds(mt[..], end.0) && i == end.1
  {
    hide KeyLeads, Holds, Lows;
    var j: nat, k: nat := 0, if N > |key| then N else |key|;
    i := 1;
    ghost var w := start;
    while k > 0
      invariant Holds(mt[..], w) && KeyLeads(w, Lows(key), i, j, k, end)
    {
      i, j, w := KeyRound(mt, key, i, j, k, w, end);
      k := k - 1;
    }
    KeyLeadsEnd(w, Lows(key), i, j, end);
  }

  // The rounds without the key.
  method MixPlain(mt: array<Long>, i0: nat, ghost start: seq<Word>) returns (ghost w: seq<Word>)
    requires mt.Length == N && Holds(mt[..], start) && 1 <= i0 < N
    modifies mt
    ensures Holds(mt[..], w) && w == PlainRounds(start, i0, N - 1)
  {
    var i: nat, k: nat := i0, N - 1;
    w := start;
    while k > 0
      invariant 1 <= i < N && Holds(mt[..], w)
      invariant PlainRounds(w, i, k) == PlainRounds(start, i0, N - 1)
    {
      var x := MakePlainWord(mt[i], mt[i - 1], i, w[i], w[i - 1]);
      ghost var wx := PlainWord(w[i], w[i - 1], Count(i));
      ghost var v := Replaced(w, i, wx);
      i := Replace(mt, i, x, w, wx);
      w := v;
      k := k - 1;
    }
  }

  // The first n words of the array are these.
  ghost predicate HoldsSome(mt: seq<Long>, w: seq<Word>, n: nat)
  {
    |mt| == |w| == N && forall i :: 0 <= i < n && i < N ==> mt[i] == Widen(w[i])
  }

  lemma SeededFirst(mt: seq<Long>, s: Long)
    requires |mt| == N && mt[0] == s & 0xffffffff
    ensures HoldsSome(mt, Seeded(Low(s)), 1)
  {
    SeedFits(s);
  }

  // One turn of the loop of init_genrand.
  method SeedOne(mt: array<Long>, i: nat, ghost s: Word)
    requires mt.Length == N && 1 <= i < N && HoldsSome(mt[..], Seeded(s), i)
    modifies mt
    ensures HoldsSome(mt[..], Seeded(s), i + 1)
  {
    assert Seeded(s)[i] == SeedWord(Seeded(s)[i - 1], Count(i));
    assert mt[..][i - 1] == Widen(Seeded(s)[i - 1]);
    var x := MakeSeedWord(mt[i - 1], i, Seeded(s)[i - 1]);
    mt[i] := x;
  }

  // init_by_array on an array that is seeded.
  method SetByKey(mt: array<Long>, key: seq<Long>, ghost start: seq<Word>)
    requires mt.Length == N && key != [] && Holds(mt[..], start) && start == Seeded(19650218)
    modifies mt
    ensures Holds(mt[..], SeededByKey(Lows(key)))
  {
    ghost var end := KeyLeadsFrom(Lows(key));
    var i := MixKey(mt, key, start, end);
    ghost var w := MixPlain(mt, i, end.0);
    SetFirst(mt, w);
  }

  method SetFirst(mt: array<Long>, ghost w: seq<Word>)
    requires mt.Length == N && Holds(mt[..], w)
    modifies mt
    ensures Holds(mt[..], w[0 := 0x80000000])
  {
    TopWord();
    mt[0] := 0x80000000;
  }

  // ---------- Drawing ----------

  method TemperLong(x: Long, ghost w: Word) returns (y: Long)
    requires x == Widen(w)
    ensures y == Widen(Temper(w))
  {
    TemperWidens(w);
    y := LongT1(x);
    y := LongT2(y);
    y := LongT3(y);
    y := LongT4(y);
  }

  // The array in the middle of being regenerated: the words before kk are one block ahead.
  ghost predicate Partly(mt: seq<Long>, start: seq<Word>, from: nat, kk: nat)
    requires |start| == N
  {
    && |mt| == N
    && forall j :: 0 <= j < N ==> mt[j] == Widen(X(start, if j < kk then from + N + j else from + j))
  }

  lemma WholeBlock(mt: seq<Long>, start: seq<Word>, from: nat)
    requires |start| == N && Partly(mt, start, from, N)
    ensures Partly(mt, start, from + N, 0)
  {
  }

  lemma HoldsBlock(mt: seq<Long>, w: seq<Word>)
    requires |mt| == |w| == N
    ensures Holds(mt, w) <==> Partly(mt, w, 0, 0)
    ensures Holds(mt, w) <==> HoldsSome(mt, w, N)
  {
    assert forall j :: 0 <= j < N ==> X(w, 0 + j) == w[j];
  }

  // The word made of words 0, 1 and M of the block, counted from kk on.
  method MakeWord(m: Long, u: Long, l: Long, ghost start: seq<Word>, ghost k: nat) returns (r: Long)
    requires |start| == N
    requires m == Widen(X(start, k + M)) && u == Widen(X(start, k)) && l == Widen(X(start, k + 1))
    ensures r == Widen(X(start, k + N))
  {
    r := LongTwist(m, u, l);
    TwistWidens(X(start, k + M), X(start, k), X(start, k + 1));
  }

  // Replaces word kk; words l and m are the ones that follow it by 1 and by M.
  method Renew(mt: array<Long>, kk: nat, l: nat, m: nat, ghost start: seq<Word>, ghost from: nat)
    requires |start| == N && mt.Length == N && kk < N && Partly(mt[..], start, from, kk)
    requires l == if kk + 1 < N then kk + 1 else 0
    requires m == if kk + M < N then kk + M else kk + M - N
    modifies mt
    ensures Partly(mt[..], start, from, kk + 1)
  {
    ghost var s := mt[..];
    assert s[m] == Widen(X(start, from + kk + M)) && s[l] == Widen(X(start, from + kk + 1));
    var y := MakeWord(mt[m], mt[kk], mt[l], start, from + kk);
    mt[kk] := y;
    assert mt[..] == s[kk := y];
  }

  // Writes every word of the next block over the one that it replaces.
  method Regenerate(mt: array<Long>, ghost start: seq<Word>, ghost from: nat)
    requires |start| == N && mt.Length == N && Partly(mt[..], start, from, 0)
    modifies mt
    ensures Partly(mt[..], start, from + N, 0)
  {
    var kk := 0;
    while kk < N - M
      invariant kk <= N - M && Partly(mt[..], start, from, kk)
    {
      Renew(mt, kk, kk + 1, kk + M, start, from);
      kk := kk + 1;
    }
    while kk < N - 1
      invariant N - M <= kk <= N - 1 && Partly(mt[..], start, from, kk)
    {
      Renew(mt, kk, kk + 1, kk + (M - N), start, from);
      kk := kk + 1;
    }
    Renew(mt, N - 1, 0, M - 1, start, from);
    WholeBlock(mt[..], start, from);
  }

  class Generator {
    const mt: array<Long>
    var mti: nat
    // The words that the sequence started with, and the position in it of the array.
    ghost var start: seq<Word>
    ghost var from: nat

    // Once it is seeded, the array holds a block of a sequence that is not zero.
    ghost predicate Valid()
      reads this, mt
    {
      && mt.Length == N && mti <= N + 1
      && (mti <= N ==>
            |start| == N && !ZeroState(start) && N <= from + mti && Partly(mt[..], start, from, 0))
    }

    // How many numbers have been drawn since the seeding.
    ghost function Drawn(): nat
      requires Valid() && mti <= N
      reads this, mt
    {
      from + mti - N
    }

    constructor ()
      ensures Valid() && mti == N + 1
    {
      mt := new Long[N];
      mti := N + 1;
    }

    method InitGenrand(s: Long)
      requires Valid()
      modifies this, mt
      ensures Valid() && mti == N && start == Seeded(Low(s)) && from == 0
    {
      ghost var w := Seeded(Low(s));
      mt[0] := s & 0xffffffff;
      SeededFirst(mt[..], s);
      mti := 1;
      while mti < N
        invariant 1 <= mti <= N && HoldsSome(mt[..], w, mti)
      {
        SeedOne(mt, mti, Low(s));
        mti := mti + 1;
      }
      SeededNotZero(Low(s));
      start, from := w, 0;
      HoldsBlock(mt[..], w);
    }

    method InitByArray(key: seq<Long>)
      requires Valid() && key != []
      modifies this, mt
      ensures Valid() && mti == N && start == SeededByKey(Lows(key)) && from == 0
    {
      InitGenrand(19650218);
      LowConstants();
      HoldsBlock(mt[..], start);
      SetByKey(mt, key, start);
      start := SeededByKey(Lows(key));
      SeededByKeyNotZero(Lows(key));
      HoldsBlock(mt[..], start);
    }

    // Makes sure that there is a word to draw; the default seed is used if there has been
    // no seeding.
    method Refill()
      requires Valid()
      modifies this, mt
      ensures Valid() && mti < N
      ensures old(mti) == N + 1 ==> start == Seeded(5489) && from + mti == N
      ensures old(mti) <= N ==> start == old(start) && from + mti == old(from + mti)
    {
      if mti >= N {
        if mti == N + 1 {
          InitGenrand(5489);
          LowConstants();
        }
        Regenerate(mt, start, from);
        from, mti := from + N, 0;
      }
    }

    // Draws the next number.
    method GenrandInt32() returns (y: Long)
      requires Valid()
      modifies this, mt
      ensures Valid() && mti <= N
      ensures old(mti) == N + 1 ==> start == Seeded(5489) && Drawn() == 1
      ensures old(mti) <= N ==> start == old(start) && Drawn() == old(Drawn()) + 1
      ensures y == Widen(Temper(X(start, N + Drawn() - 1)))
      ensures Engine.PutsOut(start, Drawn(), Low(y)) && y <= 0xffffffff
    {
      hide Engine.PutsOut, Temper;
      Refill();
      y := mt[mti];
      assert y == mt[..][mti] == Widen(X(start, from + mti));
      mti := mti + 1;
      y := TemperLong(y, X(start, from + mti - 1));
      Engine.NumberDrawn(start, Drawn());
      LowWidens(Temper(X(start, from + mti - 1)));
    }

    // However many numbers have been drawn, the array is not all zero.
    lemma ArrayNotZero()
      requires Valid() && mti <= N
      ensures exists i :: 0 <= i < N && mt[i] != 0
    {
      NeverZero(start, from);
      var w := Window(start, from);
      if forall i :: 0 <= i < N ==> mt[i] == 0 {
        forall i | 0 <= i < N
          ensures w[i] == 0
        {
          assert mt[..][i] == Widen(X(start, from + i));
          WidenZero(w[i]);
        }
        MingleZero();
      }
    }
  }
}
