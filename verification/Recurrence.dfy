// The recurrence on 32-bit words that the generator computes. No step of it loses state.
module Recurrence {
  import opened Words
  import opened Sealing

  const N := 624
  const M := 397

  // Word k of the sequence that starts with these N words.
  function X(start: seq<Word>, k: nat): Word
    requires |start| == N
  {
    if k < N then start[k]
    else Mingle(X(start, k - N + M), X(start, k - N), X(start, k - N + 1))
  }

  // The N words from position k on.
  function Window(start: seq<Word>, k: nat): (w: seq<Word>)
    requires |start| == N
    ensures |w| == N && forall i {:trigger w[i]} :: 0 <= i < N ==> w[i] == X(start, k + i)
  {
    seq(N, i requires 0 <= i < N => X(start, k + i))
  }

  // The word that one step of the recurrence adds to a window.
  function Newest(w: seq<Word>): Word
    requires |w| == N
  {
    Mingle(w[M], w[0], w[1])
  }

  function Step(w: seq<Word>): (r: seq<Word>)
    requires |w| == N
    ensures |r| == N
  {
    w[1..] + [Newest(w)]
  }

  // The window of the sequence moves on by steps.
  lemma WindowMoves(start: seq<Word>, k: nat)
    requires |start| == N
    ensures Window(start, k + 1) == Step(Window(start, k))
  {
    var v, w := Window(start, k), Window(start, k + 1);
    assert w[N - 1] == X(start, k + N) == Newest(v);
    assert forall i :: 0 <= i < N - 1 ==> w[i] == v[i + 1] == Step(v)[i];
  }

  // Equal in the 19937 bits that matter: the top bit of the first word and all of the others.
  predicate SameState(v: seq<Word>, w: seq<Word>)
    requires |v| == |w| == N
  {
    Top(v[0]) == Top(w[0]) && forall i :: 1 <= i < N ==> v[i] == w[i]
  }

  // A step depends on these bits only.
  lemma StepDepends(v: seq<Word>, w: seq<Word>)
    requires |v| == |w| == N && SameState(v, w)
    ensures Step(v) == Step(w)
  {
    assert v[1] == w[1] && v[M] == w[M];
    MingleDepends(v[M], v[0], v[1], w[0], w[1]);
    assert Newest(v) == Newest(w);
    assert forall i :: 0 <= i < N - 1 ==> Step(v)[i] == v[i + 1] == w[i + 1] == Step(w)[i];
  }

  // A step is injective on the 19937 bits.
  lemma StepInjective(v: seq<Word>, w: seq<Word>)
    requires |v| == |w| == N && SameState(Step(v), Step(w))
    ensures SameState(v, w)
  {
    var a, b := Step(v), Step(w);
    assert forall i :: 2 <= i < N ==> v[i] == a[i - 1] && w[i] == b[i - 1];
    assert v[M] == w[M];
    assert a[N - 1] == Newest(v) && b[N - 1] == Newest(w);
    MingleTells(v[M], v[0], v[1], w[0], w[1]);
    assert a[0] == v[1] && b[0] == w[1];
    PartsMake(v[1], w[1]);
  }

  lemma StepKeeps(v: seq<Word>, w: seq<Word>)
    requires |v| == |w| == N
    ensures SameState(Step(v), Step(w)) <==> SameState(v, w)
  {
    if SameState(v, w) {
      StepDepends(v, w);
    } else if SameState(Step(v), Step(w)) {
      StepInjective(v, w);
    }
  }

  // The window before this one, as far as it matters.
  function Unstep(w: seq<Word>): (r: seq<Word>)
    requires |w| == N
    ensures |r| == N
  {
    var y := Unmingle(w[M - 1], w[N - 1]);
    [y, Join(w[0], y)] + w[1..N - 1]
  }

  // Every state has a state before it, so that a step is a bijection on the 19937 bits.
  lemma StepSurjective(w: seq<Word>)
    requires |w| == N
    ensures SameState(Step(Unstep(w)), w)
  {
    var y := Unmingle(w[M - 1], w[N - 1]);
    var v := Unstep(w);
    assert v[0] == y && v[1] == Join(w[0], y) && v[M] == w[M - 1];
    MingleUnmingle(w[M - 1], w[N - 1], w[0]);
    var s := Step(v);
    assert s[0] == v[1] && s[N - 1] == w[N - 1];
    assert forall i :: 1 <= i < N - 1 ==> s[i] == v[i + 1] == w[i];
  }

  // ---------- The zero state ----------

  predicate ZeroState(w: seq<Word>)
    requires |w| == N
  {
    Top(w[0]) == 0 && forall i :: 1 <= i < N ==> w[i] == 0
  }

  function Zeros(): (w: seq<Word>)
    ensures |w| == N && forall i {:trigger w[i]} :: 0 <= i < N ==> w[i] == 0
  {
    seq(N, i => 0)
  }

  lemma ZeroIs(w: seq<Word>)
    requires |w| == N
    ensures ZeroState(w) <==> SameState(w, Zeros())
  {
    MingleZero();
  }

  lemma StepOfZeros()
    ensures Step(Zeros()) == Zeros()
  {
    MingleZero();
  }

  lemma StepOfZero(w: seq<Word>)
    requires |w| == N
    ensures ZeroState(Step(w)) <==> ZeroState(w)
  {
    ZeroIs(w);
    ZeroIs(Step(w));
    StepOfZeros();
    StepKeeps(w, Zeros());
  }

  lemma WindowStart(start: seq<Word>)
    requires |start| == N
    ensures Window(start, 0) == start
  {
  }

  // A sequence that does not start in the zero state never gets there.
  lemma {:induction false} NeverZero(start: seq<Word>, k: nat)
    requires |start| == N
    ensures ZeroState(Window(start, k)) <==> ZeroState(start)
  {
    if k == 0 {
      WindowStart(start);
    } else {
      NeverZero(start, k - 1);
      WindowMoves(start, k - 1);
      StepOfZero(Window(start, k - 1));
    }
  }

  lemma MovesKeep(s: seq<Word>, t: seq<Word>, k: nat)
    requires |s| == |t| == N
    ensures SameState(Window(s, k + 1), Window(t, k + 1)) <==> SameState(Window(s, k), Window(t, k))
  {
    WindowMoves(s, k);
    WindowMoves(t, k);
    StepKeeps(Window(s, k), Window(t, k));
  }

  // The whole start, as far as it matters, is determined by any later window.
  lemma {:induction false} StateIsKept(s: seq<Word>, t: seq<Word>, k: nat)
    requires |s| == |t| == N
    ensures SameState(Window(s, k), Window(t, k)) <==> SameState(s, t)
  {
    if k == 0 {
      WindowStart(s);
      WindowStart(t);
    } else {
      StateIsKept(s, t, k - 1);
      MovesKeep(s, t, k - 1);
    }
  }

  // ---------- Seeding ----------

  function SeedAt(s: Word, i: nat): Word
  {
    if i == 0 then s else SeedWord(SeedAt(s, i - 1), Count(i))
  }

  // The words seeded by s.
  function Seeded(s: Word): (w: seq<Word>)
    ensures |w| == N && forall i {:trigger w[i]} :: 0 <= i < N ==> w[i] == SeedAt(s, i)
  {
    seq(N, i requires 0 <= i < N => SeedAt(s, i))
  }

  // No seed gives the zero state: words one and two are not both zero.
  lemma SeededNotZero(s: Word)
    ensures !ZeroState(Seeded(s))
  {
    var w := Seeded(s);
    assert w[2] == SeedWord(w[1], Count(2));
    SeedWordOfZero(Count(2));
    CountOfTwo();
  }

  lemma CountOfTwo()
    ensures Count(2) == 2
  {
    assert Count(0) == 0;
    assert Count(1) == 1;
  }

  // The position after i in the cyclic walk over words 1 to N - 1.
  function Next(i: nat): nat
  {
    if i + 1 >= N then 1 else i + 1
  }

  // One word replaced; when the walk wraps around, word 0 takes the last word.
  function Replaced(w: seq<Word>, i: nat, x: Word): (r: seq<Word>)
    requires |w| == N && 1 <= i < N
    ensures |r| == N
  {
    var v := w[i := x];
    if i + 1 >= N then v[0 := v[N - 1]] else v
  }

  // k rounds that mix in the key, and where the walk stops.
  function KeyRounds(w: seq<Word>, key: seq<Word>, i: nat, j: nat, k: nat): (r: (seq<Word>, nat))
    requires |w| == N && 1 <= i < N && j < |key|
    ensures |r.0| == N && 1 <= r.1 < N
    decreases k
  {
    if k == 0 then (w, i)
    else
      KeyRounds(Replaced(w, i, KeyWord(w[i], w[i - 1], key[j], Count(j))), key,
                Next(i), if j + 1 >= |key| then 0 else j + 1, k - 1)
  }

  // k rounds without it.
  function PlainRounds(w: seq<Word>, i: nat, k: nat): (r: seq<Word>)
    requires |w| == N && 1 <= i < N
    ensures |r| == N
    decreases k
  {
    if k == 0 then w
    else PlainRounds(Replaced(w, i, PlainWord(w[i], w[i - 1], Count(i))), Next(i), k - 1)
  }

  // The words seeded by a key.
  function SeededByKey(key: seq<Word>): (r: seq<Word>)
    requires key != []
    ensures |r| == N && r[0] == 0x80000000
  {
    var mixed := KeyRounds(Seeded(19650218), key, 1, 0, if N > |key| then N else |key|);
    PlainRounds(mixed.0, mixed.1, N - 1)[0 := 0x80000000]
  }

  // These rounds end there; sealed, so that the loop does not unfold them.
  ghost predicate KeyLeads(w: seq<Word>, key: seq<Word>, i: nat, j: nat, k: nat, end: (seq<Word>, nat))
  {
    && |w| == |end.0| == N && 1 <= i < N && 1 <= end.1 < N && j < |key|
    && forall r :: Unfold(r) ==> KeyRounds(w, key, i, j, k) == end
  }

  lemma KeyLeadsOn(w: seq<Word>, key: seq<Word>, i: nat, j: nat, k: nat, end: (seq<Word>, nat))
    requires KeyLeads(w, key, i, j, k, end) && k > 0
    ensures KeyLeads(Replaced(w, i, KeyWord(w[i], w[i - 1], key[j], Count(j))), key,
                     Next(i), if j + 1 >= |key| then 0 else j + 1, k - 1, end)
  {
    assert Unfold(0);
  }

  lemma KeyLeadsEnd(w: seq<Word>, key: seq<Word>, i: nat, j: nat, end: (seq<Word>, nat))
    requires KeyLeads(w, key, i, j, 0, end)
    ensures (w, i) == end
  {
    assert Unfold(0);
  }

  lemma KeyLeadsFrom(key: seq<Word>) returns (end: (seq<Word>, nat))
    requires key != []
    ensures KeyLeads(Seeded(19650218), key, 1, 0, if N > |key| then N else |key|, end)
    ensures SeededByKey(key) == PlainRounds(end.0, end.1, N - 1)[0 := 0x80000000]
  {
    end := KeyRounds(Seeded(19650218), key, 1, 0, if N > |key| then N else |key|);
  }

  // No key gives the zero state: the top bit of the first word is set.
  lemma SeededByKeyNotZero(key: seq<Word>)
    requires key != []
    ensures !ZeroState(SeededByKey(key))
  {
    TopBit();
  }

  lemma TopBit()
    ensures Top(0x80000000) != 0
  {
  }
}
