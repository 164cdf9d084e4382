// The operations of the Mersenne Twister on single 32-bit words, and what they undo.
module Words {

  type Word = bv32

  const MATRIX_A: Word := 0x9908b0df
  const UPPER_MASK: Word := 0x80000000
  const LOWER_MASK: Word := 0x7fffffff

  function Top(w: Word): Word { w & UPPER_MASK }

  function Bottom(w: Word): Word { w & LOWER_MASK }

  // The top bit of one word and the rest of another.
  function Join(u: Word, l: Word): Word
  {
    (u & UPPER_MASK) | (l & LOWER_MASK)
  }

  lemma JoinParts(u: Word, l: Word)
    ensures Top(Join(u, l)) == Top(u) && Bottom(Join(u, l)) == Bottom(l)
  {
  }

  lemma JoinSame(u: Word, l: Word, v: Word, m: Word)
    requires Top(u) == Top(v) && Bottom(l) == Bottom(m)
    ensures Join(u, l) == Join(v, m)
  {
  }

  lemma PartsMake(u: Word, v: Word)
    requires Top(u) == Top(v) && Bottom(u) == Bottom(v)
    ensures u == v
  {
  }

  // Multiplication by the matrix A: a shift, and an addition if a bit falls out.
  function Twist(y: Word): Word
  {
    if y & 1 == 0 then y >> 1 else (y >> 1) ^ MATRIX_A
  }

  // Whether the bit fell out shows in the top bit, because A has it set.
  function Untwist(z: Word): Word
  {
    if z & UPPER_MASK == 0 then z << 1 else ((z ^ MATRIX_A) << 1) | 1
  }

  lemma UntwistEven(y: Word)
    requires y & 1 == 0
    ensures Untwist(y >> 1) == y
  {
  }

  lemma UntwistOdd(y: Word)
    requires y & 1 != 0
    ensures Untwist((y >> 1) ^ MATRIX_A) == y
  {
  }

  lemma TwistEven(z: Word)
    requires z & UPPER_MASK == 0
    ensures Twist(z << 1) == z
  {
  }

  lemma TwistOdd(z: Word)
    requires z & UPPER_MASK != 0
    ensures Twist(((z ^ MATRIX_A) << 1) | 1) == z
  {
  }

  lemma TwistBijective(y: Word)
    ensures Untwist(Twist(y)) == y && Twist(Untwist(y)) == y
  {
    if y & 1 == 0 {
      UntwistEven(y);
    } else {
      UntwistOdd(y);
    }
    if y & UPPER_MASK == 0 {
      TwistEven(y);
    } else {
      TwistOdd(y);
    }
  }

  lemma XorCancel(a: Word, b: Word, c: Word)
    requires a ^ b == a ^ c
    ensures b == c
  {
  }

  lemma XorTwice(a: Word, b: Word)
    ensures a ^ (b ^ a) == b
  {
  }

  function Plus(a: Word, b: Word): Word { a ^ b }

  // The word that the recurrence makes of three earlier ones.
  function Mingle(m: Word, u: Word, l: Word): Word
  {
    Plus(m, Twist(Join(u, l)))
  }

  // It depends on the top bit of the second and the other bits of the third,
  lemma MingleDepends(m: Word, u: Word, l: Word, v: Word, k: Word)
    requires Top(u) == Top(v) && Bottom(l) == Bottom(k)
    ensures Mingle(m, u, l) == Mingle(m, v, k)
  {
    JoinSame(u, l, v, k);
  }

  // and tells them.
  lemma MingleTells(m: Word, u: Word, l: Word, v: Word, k: Word)
    requires Mingle(m, u, l) == Mingle(m, v, k)
    ensures Top(u) == Top(v) && Bottom(l) == Bottom(k)
  {
    XorCancel(m, Twist(Join(u, l)), Twist(Join(v, k)));
    TwistBijective(Join(u, l));
    TwistBijective(Join(v, k));
    JoinParts(u, l);
    JoinParts(v, k);
  }

  // What was joined, given the first word and the result.
  function Unmingle(m: Word, z: Word): Word
  {
    Untwist(z ^ m)
  }

  lemma MingleUnmingle(m: Word, z: Word, u: Word)
    ensures var y := Unmingle(m, z);
      Mingle(m, y, Join(u, y)) == z && Top(Join(u, y)) == Top(u)
  {
    var y := Unmingle(m, z);
    JoinParts(u, y);
    JoinParts(y, Join(u, y));
    PartsMake(Join(y, Join(u, y)), y);
    TwistBijective(z ^ m);
    XorTwice(m, z);
  }

  lemma MingleZero()
    ensures Mingle(0, 0, 0) == 0 && Top(0) == 0
  {
  }

  // ---------- Tempering ----------

  function T1(x: Word): Word { x ^ (x >> 11) }

  function T2(x: Word): Word { x ^ ((x << 7) & 0x9d2c5680) }

  function T3(x: Word): Word { x ^ ((x << 15) & 0xefc60000) }

  function T4(x: Word): Word { x ^ (x >> 18) }

  function Temper(x: Word): Word
  {
    T4(T3(T2(T1(x))))
  }

  function U1(y: Word): Word { y ^ (y >> 11) ^ (y >> 22) }

  // Seven bits at a time.
  function U2(y: Word): Word
  {
    y ^ (((y ^ (((y ^ (((y ^ ((y << 7) & 0x9d2c5680)) << 7) & 0x9d2c5680)) << 7) & 0x9d2c5680)) << 7) & 0x9d2c5680)
  }

  function Untemper(y: Word): Word
  {
    U1(U2(T3(T4(y))))
  }

  lemma FirstUndone(x: Word)
    ensures U1(x ^ (x >> 11)) == x && T1(x ^ (x >> 11) ^ (x >> 22)) == x
  {
  }

  lemma First(x: Word)
    ensures U1(T1(x)) == x && T1(U1(x)) == x
  {
    FirstUndone(x);
  }

  lemma SecondUndone(x: Word)
    ensures U2(x ^ ((x << 7) & 0x9d2c5680)) == x
    ensures
      T2(x ^ (((x ^ (((x ^ (((x ^ ((x << 7) & 0x9d2c5680)) << 7) & 0x9d2c5680)) << 7)
               & 0x9d2c5680)) << 7) & 0x9d2c5680))
      == x
  {
  }

  lemma Second(x: Word)
    ensures U2(T2(x)) == x && T2(U2(x)) == x
  {
    SecondUndone(x);
  }

  lemma ThirdUndone(x: Word)
    ensures T3(x ^ ((x << 15) & 0xefc60000)) == x
  {
  }

  lemma Third(x: Word)
    ensures T3(T3(x)) == x
  {
    ThirdUndone(x);
  }

  lemma FourthUndone(x: Word)
    ensures T4(x ^ (x >> 18)) == x
  {
  }

  lemma Fourth(x: Word)
    ensures T4(T4(x)) == x
  {
    FourthUndone(x);
  }

  lemma UntemperTemper(x: Word)
    ensures Untemper(Temper(x)) == x
  {
    First(x);
    Second(T1(x));
    Third(T2(T1(x)));
    Fourth(T3(T2(T1(x))));
  }

  lemma TemperUntemper(y: Word)
    ensures Temper(Untemper(y)) == y
  {
    Fourth(y);
    Third(T4(y));
    Second(T3(T4(y)));
    First(U2(T3(T4(y))));
  }

  // Tempering is a bijection on words.
  lemma TemperBijective(x: Word)
    ensures Untemper(Temper(x)) == x && Temper(Untemper(x)) == x
  {
    UntemperTemper(x);
    TemperUntemper(x);
  }

  // ---------- Seeding ----------

  function Successor(w: Word): Word { w + 1 }

  // A count as a word.
  function Count(i: nat): Word
  {
    if i == 0 then 0 else Successor(Count(i - 1))
  }

  function SeedWord(v: Word, c: Word): Word
  {
    1812433253 * (v ^ (v >> 30)) + c
  }

  function KeyWord(w: Word, v: Word, k: Word, c: Word): Word
  {
    (w ^ ((v ^ (v >> 30)) * 1664525)) + k + c
  }

  function PlainWord(w: Word, v: Word, c: Word): Word
  {
    (w ^ ((v ^ (v >> 30)) * 1566083941)) - c
  }

  lemma SeedWordOfZero(c: Word)
    ensures SeedWord(0, c) == c
  {
  }
}
