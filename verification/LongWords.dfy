// The same operations on an unsigned long that has 64 bits: masking keeps the words to 32
// bits, and then they are the operations on 32-bit words.
module LongWords {
  import opened Words

  type Long = bv64

  function Widen(x: Word): Long
  {
    x as Long
  }

  function Low(x: Long): Word
  {
    (x & 0xffffffff) as Word
  }

  // mag01
  function Mag01(x: Long): Long
  {
    if x == 0 then 0 else 0x9908b0df
  }

  function LongTwist(m: Long, u: Long, l: Long): Long
  {
    var y := (u & 0x80000000) | (l & 0x7fffffff);
    m ^ (y >> 1) ^ Mag01(y & 1)
  }

  function LongT1(y: Long): Long { y ^ (y >> 11) }

  function LongT2(y: Long): Long { y ^ ((y << 7) & 0x9d2c5680) }

  function LongT3(y: Long): Long { y ^ ((y << 15) & 0xefc60000) }

  function LongT4(y: Long): Long { y ^ (y >> 18) }

  function LongSeedWord(v: Long, c: Long): Long
  {
    (1812433253 * (v ^ (v >> 30)) + c) & 0xffffffff
  }

  function LongKeyWord(w: Long, v: Long, k: Long, c: Long): Long
  {
    ((w ^ ((v ^ (v >> 30)) * 1664525)) + k + c) & 0xffffffff
  }

  function LongPlainWord(w: Long, v: Long, c: Long): Long
  {
    ((w ^ ((v ^ (v >> 30)) * 1566083941)) - c) & 0xffffffff
  }

  function LongSuccessor(x: Long): Long { x + 1 }

  // An int converted to unsigned long.
  function LongOf(i: nat): Long
  {
    if i == 0 then 0 else LongSuccessor(LongOf(i - 1))
  }

  lemma WidenZero(w: Word)
    requires Widen(w) == 0
    ensures w == 0
  {
  }

  lemma LowWidens(w: Word)
    ensures Low(Widen(w)) == w && Widen(w) <= 0xffffffff
  {
  }

  lemma SeedFits(s: Long)
    ensures s & 0xffffffff == Widen(Low(s))
  {
  }

  lemma LowConstants()
    ensures Low(19650218) == 19650218 && Low(5489) == 5489
  {
  }

  lemma TopWord()
    ensures Widen(0x80000000) == 0x80000000
  {
  }

  lemma TwistEvenWidens(m: Word, u: Word, l: Word)
    requires l & 1 == 0
    ensures LongTwist(m as Long, u as Long, l as Long) == Widen(m ^ (((u & UPPER_MASK) | (l & LOWER_MASK)) >> 1))
  {
  }

  lemma TwistOddWidens(m: Word, u: Word, l: Word)
    requires l & 1 != 0
    ensures LongTwist(m as Long, u as Long, l as Long)
         == Widen(m ^ ((((u & UPPER_MASK) | (l & LOWER_MASK)) >> 1) ^ MATRIX_A))
  {
  }

  lemma TwistOfEven(u: Word, l: Word)
    requires l & 1 == 0
    ensures Twist((u & UPPER_MASK) | (l & LOWER_MASK)) == ((u & UPPER_MASK) | (l & LOWER_MASK)) >> 1
  {
  }

  lemma TwistOfOdd(u: Word, l: Word)
    requires l & 1 != 0
    ensures Twist((u & UPPER_MASK) | (l & LOWER_MASK)) == (((u & UPPER_MASK) | (l & LOWER_MASK)) >> 1) ^ MATRIX_A
  {
  }

  lemma JoinIs(u: Word, l: Word)
    ensures Join(u, l) == (u & UPPER_MASK) | (l & LOWER_MASK)
  {
  }

  lemma PlusIs(m: Word, t: Word)
    ensures Plus(m, t) == m ^ t
  {
  }

  lemma MingleEven(m: Word, u: Word, l: Word)
    requires l & 1 == 0
    ensures Widen(Mingle(m, u, l)) == Widen(m ^ (((u & UPPER_MASK) | (l & LOWER_MASK)) >> 1))
  {
    JoinIs(u, l);
    TwistOfEven(u, l);
    PlusIs(m, ((u & UPPER_MASK) | (l & LOWER_MASK)) >> 1);
  }

  lemma MingleOdd(m: Word, u: Word, l: Word)
    requires l & 1 != 0
    ensures Widen(Mingle(m, u, l)) == Widen(m ^ ((((u & UPPER_MASK) | (l & LOWER_MASK)) >> 1) ^ MATRIX_A))
  {
    JoinIs(u, l);
    TwistOfOdd(u, l);
    PlusIs(m, (((u & UPPER_MASK) | (l & LOWER_MASK)) >> 1) ^ MATRIX_A);
  }

  lemma TwistWidens(m: Word, u: Word, l: Word)
    ensures LongTwist(Widen(m), Widen(u), Widen(l)) == Widen(Mingle(m, u, l))
  {
    if l & 1 == 0 {
      TwistEvenWidens(m, u, l);
      MingleEven(m, u, l);
    } else {
      TwistOddWidens(m, u, l);
      MingleOdd(m, u, l);
    }
  }

  lemma SeedWordRaw(v: Word, c: Long)
    ensures LongSeedWord(v as Long, c)
         == Widen(1812433253 * (v ^ (v >> 30)) + (c & 0xffffffff) as Word)
  {
  }

  lemma SeedWordIs(v: Word, c: Word)
    ensures Widen(1812433253 * (v ^ (v >> 30)) + c) == Widen(SeedWord(v, c))
  {
  }

  lemma SeedWordWidens(v: Word, c: Long)
    ensures LongSeedWord(Widen(v), c) == Widen(SeedWord(v, Low(c)))
  {
    SeedWordRaw(v, c);
    SeedWordIs(v, (c & 0xffffffff) as Word);
  }

  lemma KeyWordRaw(w: Word, v: Word, k: Long, c: Long)
    ensures LongKeyWord(w as Long, v as Long, k, c)
         == Widen((w ^ ((v ^ (v >> 30)) * 1664525)) + (k & 0xffffffff) as Word + (c & 0xffffffff) as Word)
  {
  }

  lemma KeyWordIs(w: Word, v: Word, k: Word, c: Word)
    ensures Widen((w ^ ((v ^ (v >> 30)) * 1664525)) + k + c) == Widen(KeyWord(w, v, k, c))
  {
  }

  lemma KeyWordWidens(w: Word, v: Word, k: Long, c: Long)
    ensures LongKeyWord(Widen(w), Widen(v), k, c) == Widen(KeyWord(w, v, Low(k), Low(c)))
  {
    KeyWordRaw(w, v, k, c);
    KeyWordIs(w, v, (k & 0xffffffff) as Word, (c & 0xffffffff) as Word);
  }

  lemma PlainWordRaw(w: Word, v: Word, c: Long)
    ensures LongPlainWord(w as Long, v as Long, c)
         == Widen((w ^ ((v ^ (v >> 30)) * 1566083941)) - (c & 0xffffffff) as Word)
  {
  }

  lemma PlainWordIs(w: Word, v: Word, c: Word)
    ensures Widen((w ^ ((v ^ (v >> 30)) * 1566083941)) - c) == Widen(PlainWord(w, v, c))
  {
  }

  lemma PlainWordWidens(w: Word, v: Word, c: Long)
    ensures LongPlainWord(Widen(w), Widen(v), c) == Widen(PlainWord(w, v, Low(c)))
  {
    PlainWordRaw(w, v, c);
    PlainWordIs(w, v, (c & 0xffffffff) as Word);
  }

  lemma Stage1Widens(x: Word)
    ensures LongT1(x as Long) == Widen(x ^ (x >> 11))
  {
  }

  lemma Stage1(x: Word)
    ensures LongT1(Widen(x)) == Widen(T1(x))
  {
    Stage1Widens(x);
  }

  lemma Stage2Widens(x: Word)
    ensures LongT2(x as Long) == Widen(x ^ ((x << 7) & 0x9d2c5680))
  {
  }

  lemma Stage2(x: Word)
    ensures LongT2(Widen(x)) == Widen(T2(x))
  {
    Stage2Widens(x);
  }

  lemma Stage3Widens(x: Word)
    ensures LongT3(x as Long) == Widen(x ^ ((x << 15) & 0xefc60000))
  {
  }

  lemma Stage3(x: Word)
    ensures LongT3(Widen(x)) == Widen(T3(x))
  {
    Stage3Widens(x);
  }

  lemma Stage4Widens(x: Word)
    ensures LongT4(x as Long) == Widen(x ^ (x >> 18))
  {
  }

  lemma Stage4(x: Word)
    ensures LongT4(Widen(x)) == Widen(T4(x))
  {
    Stage4Widens(x);
  }

  // The masks on the left shifts keep tempering to 32 bits.
  lemma TemperWidens(x: Word)
    ensures LongT4(LongT3(LongT2(LongT1(Widen(x))))) == Widen(Temper(x))
  {
    Stage1(x);
    Stage2(T1(x));
    Stage3(T2(T1(x)));
    Stage4(T3(T2(T1(x))));
  }

  lemma LowSuccessor(a: Long)
    ensures Low(a + 1) == Low(a) + 1
  {
  }

  lemma LowOfSuccessor(a: Long)
    ensures Low(LongSuccessor(a)) == Successor(Low(a))
  {
    LowSuccessor(a);
  }

  lemma {:induction false} LowOfCount(i: nat)
    ensures Low(LongOf(i)) == Count(i)
  {
    if i > 0 {
      LowOfCount(i - 1);
      LowOfSuccessor(LongOf(i - 1));
    }
  }
}
