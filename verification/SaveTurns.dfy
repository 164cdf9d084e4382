// The timer that writes guilds to the database: one guild per tick, in turns.
module SaveTurns {

  // unsigned short save_flag: the low ten bits are GS_MASK.
  type Flags = f: nat | f < 0x1_0000

  const GS_MASK := 0x03FF
  const GS_REMOVE: Flags := 0x8000

  datatype Guild = Guild(id: int, flags: Flags)

  // The kinds of data that have changed since they were saved.
  function Unsaved(f: Flags): Flags
  {
    f % (GS_MASK + 1)
  }

  predicate Dirty(f: Flags)
  {
    Unsaved(f) != 0
  }

  function Cleaned(f: Flags): (r: Flags)
    ensures !Dirty(r)
  {
    f - f % (GS_MASK + 1)
  }

  lemma RemovableIsClean()
    ensures !Dirty(GS_REMOVE)
  {
  }

  // The low ten bits are what is to be saved, and cleaning clears them and no others.
  lemma LowTenBits(f: Flags)
    ensures Unsaved(f) == f % 1024 && (Dirty(f) <==> f % 1024 != 0)
    ensures Cleaned(f) % 1024 == 0 && Cleaned(f) / 1024 == f / 1024
  {
  }

  // The cached guilds, in the order of iteration; each has an id of its own.
  ghost predicate Proper(gs: seq<Guild>)
  {
    && (forall i :: 0 <= i < |gs| ==> gs[i].id > 0)
    && forall i, j :: 0 <= i < j < |gs| ==> gs[i].id != gs[j].id
  }

  // ---------- One tick ----------

  // The first guild from position i on that is dirty.
  function FirstDirty(gs: seq<Guild>, i: nat): (k: nat)
    requires i <= |gs|
    ensures i <= k <= |gs| && (k < |gs| ==> Dirty(gs[k].flags))
    ensures forall j :: i <= j < k ==> !Dirty(gs[j].flags)
    decreases |gs| - i
  {
    if i == |gs| || Dirty(gs[i].flags) then i else FirstDirty(gs, i + 1)
  }

  function Position(gs: seq<Guild>, id: int): (k: nat)
    ensures k <= |gs| && (k < |gs| ==> gs[k].id == id) && forall j :: 0 <= j < k ==> gs[j].id != id
    decreases |gs|
  {
    if gs == [] then 0
    else
      var n := |gs| - 1;
      var k := Position(gs[..n], id);
      assert forall j :: 0 <= j < k ==> gs[j] == gs[..n][j];
      if k < n then k else if gs[n].id == id then n else n + 1
  }

  // Where a tick starts to look: after the guild that was saved last.
  function Begin(gs: seq<Guild>, last: int): (i: nat)
    ensures i <= |gs|
  {
    if last == 0 then 0
    else
      var k := Position(gs, last);
      if k < |gs| then k + 1 else k
  }

  // The guild that a tick saves, if there is one.
  function Pick(gs: seq<Guild>, last: int): (k: nat)
    ensures k <= |gs| && (k < |gs| ==> Dirty(gs[k].flags))
  {
    FirstDirty(gs, Begin(gs, last))
  }

  // What the next tick takes for the guild saved last.
  function NextLast(gs: seq<Guild>, last: int): int
  {
    var k := Pick(gs, last);
    if k < |gs| then gs[k].id else 0
  }

  // A tick saves the first dirty guild after the one saved last, or the first of all after a
  // tick that has saved none. If the one saved last is gone, it saves none.
  lemma TickSaves(gs: seq<Guild>, last: int)
    requires Proper(gs)
    ensures var k := Pick(gs, last);
      && (k < |gs| ==> gs[k].flags % 1024 != 0 && NextLast(gs, last) == gs[k].id)
      && (k == |gs| ==> NextLast(gs, last) == 0)
      && (last == 0 ==> forall j :: 0 <= j < k ==> gs[j].flags % 1024 == 0)
      && (forall p :: 0 <= p < |gs| && gs[p].id == last ==> p < k && forall j :: p < j < k ==> gs[j].flags % 1024 == 0)
      && (last != 0 && (forall p :: 0 <= p < |gs| ==> gs[p].id != last) ==> k == |gs|)
  {
    var k := Pick(gs, last);
    forall j | Begin(gs, last) <= j < k
      ensures gs[j].flags % 1024 == 0
    {
      assert !Dirty(gs[j].flags);
    }
    forall p | 0 <= p < |gs| && gs[p].id == last
      ensures p == Position(gs, last)
    {
    }
  }

  function Saved(gs: seq<Guild>, k: nat): seq<Guild>
  {
    if k < |gs| then gs[k := gs[k].(flags := Cleaned(gs[k].flags))] else gs
  }

  // The guilds that stay in memory, and those that do not.
  function Kept(gs: seq<Guild>): seq<Guild>
  {
    if gs == [] then []
    else
      var n := |gs| - 1;
      Kept(gs[..n]) + if gs[n].flags == GS_REMOVE then [] else [gs[n]]
  }

  function Unloaded(gs: seq<Guild>): seq<Guild>
  {
    if gs == [] then []
    else
      var n := |gs| - 1;
      Unloaded(gs[..n]) + if gs[n].flags == GS_REMOVE then [gs[n]] else []
  }

  lemma {:induction false} WhichAreKept(gs: seq<Guild>)
    ensures forall g :: g in Kept(gs) <==> g in gs && g.flags != GS_REMOVE
    ensures forall g :: g in Unloaded(gs) <==> g in gs && g.flags == GS_REMOVE
  {
    if gs != [] {
      var n := |gs| - 1;
      WhichAreKept(gs[..n]);
      assert forall g :: g in gs <==> g in gs[..n] || g == gs[n];
    }
  }

  // Nothing is lost: every guild with unsaved changes stays in memory, or has just been saved.
  lemma DirtyStays(gs: seq<Guild>, last: int, i: nat)
    requires i < |gs| && Dirty(gs[i].flags)
    ensures var after := Saved(gs, Pick(gs, last));
      (Pick(gs, last) == i && !Dirty(after[i].flags)) || (after[i] == gs[i] && gs[i] in Kept(after))
  {
    var k := Pick(gs, last);
    var after := Saved(gs, k);
    WhichAreKept(after);
    if k != i {
      assert after[i] == gs[i] && after[i] in after;
      if gs[i].flags == GS_REMOVE {
        RemovableIsClean();
      }
    }
  }

  // No guild is unloaded with unsaved changes.
  lemma UnloadedIsClean(gs: seq<Guild>, last: int)
    ensures forall g :: g in Unloaded(Saved(gs, Pick(gs, last))) ==> !Dirty(g.flags) && g.flags == 0x8000
  {
    RemovableIsClean();
    WhichAreKept(Saved(gs, Pick(gs, last)));
  }

  // ---------- Fairness ----------

  // Two ticks find the same guilds, with any flags.
  ghost predicate SameGuilds(gs: seq<Guild>, hs: seq<Guild>)
  {
    |hs| == |gs| && forall i :: 0 <= i < |gs| ==> hs[i].id == gs[i].id
  }

  // The guilds in memory as each of a number of ticks finds them.
  ghost predicate IsRun(run: seq<seq<Guild>>)
  {
    forall t :: 0 <= t < |run| ==> Proper(run[t])
  }

  // What it can cost that guilds have come or gone between two ticks: the turns start over.
  ghost function Cost(gs: seq<Guild>, hs: seq<Guild>): nat
  {
    if SameGuilds(gs, hs) then 0 else |hs| + 1
  }

  ghost function Restarts(run: seq<seq<Guild>>): nat
    decreases |run|
  {
    if |run| < 2 then 0 else Cost(run[0], run[1]) + Restarts(run[1..])
  }

  // A tick saves the guild with this id.
  predicate Saves(gs: seq<Guild>, last: int, id: int)
  {
    var k := Pick(gs, last);
    k < |gs| && gs[k].id == id
  }

  // One of these ticks does.
  predicate SavedDuring(last: int, run: seq<seq<Guild>>, id: int)
    decreases |run|
  {
    run != [] && (Saves(run[0], last, id) || SavedDuring(NextLast(run[0], last), run[1..], id))
  }

  // The guild has unsaved changes.
  predicate Awaits(gs: seq<Guild>, id: int)
  {
    var k := Position(gs, id);
    k < |gs| && Dirty(gs[k].flags)
  }

  // The guild is found in memory and dirty until it is saved.
  predicate AwaitsUntilSaved(last: int, run: seq<seq<Guild>>, id: int)
    decreases |run|
  {
    run != [] ==>
      && Awaits(run[0], id)
      && (Saves(run[0], last, id) || AwaitsUntilSaved(NextLast(run[0], last), run[1..], id))
  }

  // How many ticks it takes at most until the guild has its turn, if no guild comes or goes.
  function Wait(gs: seq<Guild>, last: int, id: int): (w: nat)
    requires Position(gs, id) < |gs|
    ensures 1 <= w <= |gs| + 1
  {
    var p, k := Begin(gs, last), Position(gs, id);
    if p <= k then k - p + 1 else |gs| - p + k + 2
  }

  lemma {:induction false} SamePosition(gs: seq<Guild>, hs: seq<Guild>, id: int)
    requires |gs| == |hs| && forall i :: 0 <= i < |gs| ==> gs[i].id == hs[i].id
    ensures Position(gs, id) == Position(hs, id)
  {
    if gs != [] {
      SamePosition(gs[..|gs| - 1], hs[..|hs| - 1], id);
    }
  }

  lemma PositionOf(gs: seq<Guild>, k: nat)
    requires Proper(gs) && k < |gs|
    ensures Position(gs, gs[k].id) == k
  {
  }

  // Each tick brings the turn of a waiting guild nearer, but for what changes cost.
  lemma TurnComesNearer(gs: seq<Guild>, hs: seq<Guild>, last: int, id: int)
    requires Proper(gs) && Awaits(gs, id) && !Saves(gs, last, id) && Position(hs, id) < |hs|
    ensures Wait(hs, NextLast(gs, last), id) < Wait(gs, last, id) + Cost(gs, hs)
  {
    if SameGuilds(gs, hs) {
      TurnPasses(gs, hs, last, id);
    }
  }

  lemma TurnPasses(gs: seq<Guild>, hs: seq<Guild>, last: int, id: int)
    requires Proper(gs) && SameGuilds(gs, hs)
    requires Awaits(gs, id) && !Saves(gs, last, id)
    ensures Position(hs, id) < |hs| && Wait(hs, NextLast(gs, last), id) < Wait(gs, last, id)
  {
    hide Position, FirstDirty, Unsaved;
    var j := Pick(gs, last);
    SamePosition(gs, hs, id);
    if j < |gs| {
      PositionOf(gs, j);
      SamePosition(gs, hs, gs[j].id);
      assert Begin(hs, NextLast(gs, last)) == j + 1;
    }
  }

  lemma {:induction false} SavedInTime(last: int, run: seq<seq<Guild>>, id: int)
    requires IsRun(run) && run != [] && Awaits(run[0], id) && AwaitsUntilSaved(last, run, id)
    requires |run| >= Restarts(run) + Wait(run[0], last, id)
    ensures SavedDuring(last, run, id)
    decreases |run|
  {
    if !Saves(run[0], last, id) {
      var rest, next := run[1..], NextLast(run[0], last);
      if rest != [] {
        assert rest[0] == run[1];
        TurnComesNearer(run[0], rest[0], last, id);
        SavedInTime(next, rest, id);
      }
    }
  }

  // With n guilds in memory at first, a dirty one is saved within n + 1 ticks and as many more
  // as the guilds that come and go can cost, whatever happens to the others in the meantime.
  lemma SaveIsFair(last: int, run: seq<seq<Guild>>, id: int)
    requires IsRun(run) && run != [] && AwaitsUntilSaved(last, run, id)
    requires |run| >= Restarts(run) + |run[0]| + 1
    ensures SavedDuring(last, run, id)
  {
    SavedInTime(last, run, id);
  }

  // ---------- Without loading ----------

  // The same guilds, or fewer.
  ghost predicate Dwindles(gs: seq<Guild>, hs: seq<Guild>)
  {
    |hs| < |gs| || SameGuilds(gs, hs)
  }

  ghost predicate DwindlesAt(run: seq<seq<Guild>>, t: int)
  {
    0 <= t < |run| - 1 ==> Dwindles(run[t], run[t + 1])
  }

  // What the unloading of guilds can cost as their number falls from n to m.
  function Delay(n: nat, m: nat): nat
  {
    if n <= m then 0 else n + Delay(n - 1, m)
  }

  lemma {:induction false} DelayGrows(a: nat, b: nat, m: nat)
    requires m <= a < b
    ensures Delay(a, m) + a + 1 <= Delay(b, m)
  {
    if a + 1 < b {
      DelayGrows(a, b - 1, m);
    }
  }

  lemma {:induction false} UnloadingCosts(run: seq<seq<Guild>>, m: nat)
    requires run != [] && (forall t :: DwindlesAt(run, t)) && forall t :: 0 <= t < |run| ==> |run[t]| >= m
    ensures Restarts(run) <= Delay(|run[0]|, m)
    decreases |run|
  {
    if |run| > 1 {
      var rest := run[1..];
      assert DwindlesAt(run, 0) && rest[0] == run[1];
      forall t
        ensures DwindlesAt(rest, t)
      {
        assert DwindlesAt(run, t + 1);
      }
      UnloadingCosts(rest, m);
      if |run[1]| < |run[0]| {
        DelayGrows(|run[1]|, |run[0]|, m);
      }
    }
  }

  // If no guild is loaded, and of n guilds m are never unloaded, these are n + 1 ticks and
  // n + ... + (m + 1) more; if none is unloaded either they are n + 1.
  lemma SaveIsFairUnloading(last: int, run: seq<seq<Guild>>, id: int, m: nat)
    requires IsRun(run) && run != [] && AwaitsUntilSaved(last, run, id)
    requires (forall t :: DwindlesAt(run, t)) && forall t :: 0 <= t < |run| ==> |run[t]| >= m
    requires |run| >= Delay(|run[0]|, m) + |run[0]| + 1
    ensures SavedDuring(last, run, id)
    ensures Delay(|run[0]|, |run[0]|) == 0
  {
    UnloadingCosts(run, m);
    SaveIsFair(last, run, id);
  }

  // Nothing but the timer unloads guilds, so that what it leaves, with new flags, dwindles.
  lemma {:induction false} KeptDwindles(gs: seq<Guild>)
    ensures |Kept(gs)| <= |gs| && Dwindles(gs, Kept(gs))
  {
    if gs != [] {
      var n := |gs| - 1;
      KeptDwindles(gs[..n]);
      assert forall i :: 0 <= i < n ==> gs[i] == gs[..n][i];
    }
  }

  lemma TickDwindles(gs: seq<Guild>, last: int, hs: seq<Guild>)
    requires SameGuilds(Kept(Saved(gs, Pick(gs, last))), hs)
    ensures Dwindles(gs, hs)
  {
    KeptDwindles(Saved(gs, Pick(gs, last)));
  }

  // ---------- The bound is reached ----------

  ghost predicate AllDirty(gs: seq<Guild>)
  {
    Proper(gs) && forall i :: 0 <= i < |gs| ==> Dirty(gs[i].flags)
  }

  // n ticks that all find these guilds.
  function Again(gs: seq<Guild>, n: nat): (run: seq<seq<Guild>>)
    ensures |run| == n && forall t :: 0 <= t < n ==> run[t] == gs
  {
    seq(n, _ => gs)
  }

  lemma {:induction false} NotBefore(gs: seq<Guild>, last: int, k: nat, n: nat)
    requires AllDirty(gs) && k < |gs| && n < Wait(gs, last, gs[k].id)
    ensures AwaitsUntilSaved(last, Again(gs, n), gs[k].id) && !SavedDuring(last, Again(gs, n), gs[k].id)
    decreases n
  {
    if n > 0 {
      var j := Pick(gs, last);
      PositionOf(gs, k);
      if j < |gs| {
        PositionOf(gs, j);
      }
      NotBefore(gs, NextLast(gs, last), k, n - 1);
      assert Again(gs, n)[1..] == Again(gs, n - 1);
    }
  }

  // n ticks are not enough: if all n guilds are dirty all the time, the one saved last has to
  // wait for the others and for the turns to start over.
  lemma WaitIsReached(gs: seq<Guild>, k: nat)
    requires AllDirty(gs) && k < |gs|
    ensures IsRun(Again(gs, |gs|)) && AwaitsUntilSaved(gs[k].id, Again(gs, |gs|), gs[k].id)
    ensures !SavedDuring(gs[k].id, Again(gs, |gs|), gs[k].id)
  {
    PositionOf(gs, k);
    NotBefore(gs, gs[k].id, k, |gs|);
  }

  // ---------- Loading ----------

  // Guilds have been loaded, somewhere among those that were kept.
  ghost predicate Loaded(kept: seq<Guild>, hs: seq<Guild>)
    decreases |hs|
  {
    if hs == [] then kept == []
    else
      || Loaded(kept, hs[..|hs| - 1])
      || (kept != [] && kept[|kept| - 1] == hs[|hs| - 1] && Loaded(kept[..|kept| - 1], hs[..|hs| - 1]))
  }

  // Each tick finds what the one before has left, and what has been loaded since.
  ghost predicate OnlyLoads(last: int, run: seq<seq<Guild>>)
    decreases |run|
  {
    |run| > 1 ==>
      && Loaded(Kept(Saved(run[0], Pick(run[0], last))), run[1])
      && OnlyLoads(NextLast(run[0], last), run[1..])
  }

  lemma {:induction false} NoneLoaded(gs: seq<Guild>)
    ensures Loaded(gs, gs)
  {
    if gs != [] {
      NoneLoaded(gs[..|gs| - 1]);
    }
  }

  // Two guilds in memory: one that is dirty and marked for removal, and one that waits.
  function Guest(id: int, waiting: int): seq<Guild>
  {
    [Guild(id, GS_REMOVE + 1), Guild(waiting, 1)]
  }

  // The guests a and b come and go by turns.
  function Guests(a: int, b: int, waiting: int, n: nat): (run: seq<seq<Guild>>)
    ensures |run| == n && (n > 0 ==> run[0] == Guest(a, waiting))
    decreases n
  {
    if n == 0 then []
    else if n == 1 then [Guest(a, waiting)]
    else [Guest(a, waiting), Guest(b, waiting)] + Guests(b, a, waiting, n - 2)
  }

  // No number of ticks is enough if guilds are loaded all the time: one that is saved and
  // unloaded at once makes the turns start over, with the next such guild.
  lemma {:induction false} LoadingStarves(a: int, b: int, waiting: int, n: nat)
    requires 0 < a && 0 < b && 0 < waiting && a != b && a != waiting && b != waiting
    ensures var run := Guests(a, b, waiting, n);
      && IsRun(run) && OnlyLoads(0, run)
      && AwaitsUntilSaved(0, run, waiting) && !SavedDuring(0, run, waiting)
    decreases n
  {
    hide Guest, Proper, Awaits, NextLast, Saves, Loaded, Kept, Saved, Pick;
    GuestIsSaved(a, b, waiting);
    if n > 1 {
      GuestIsMissed(a, b, waiting);
      var run, more := Guests(a, b, waiting, n), Guests(b, a, waiting, n - 2);
      LoadingStarves(b, a, waiting, n - 2);
      assert run[1..] == [Guest(b, waiting)] + more && run[1..][1..] == more;
      assert forall t :: 2 <= t < n ==> run[t] == more[t - 2];
    }
  }

  // The guest is saved and unloaded, and the next one comes.
  lemma GuestIsSaved(a: int, b: int, waiting: int)
    requires 0 < a && 0 < waiting && a != waiting
    ensures var gs := Guest(a, waiting);
      && Proper(gs) && Awaits(gs, waiting) && NextLast(gs, 0) == a && !Saves(gs, 0, waiting)
      && Unloaded(Saved(gs, Pick(gs, 0))) == [Guild(a, GS_REMOVE)]
      && Loaded(Kept(Saved(gs, Pick(gs, 0))), Guest(b, waiting))
  {
    hide Position, FirstDirty;
    var gs := Guest(a, waiting);
    assert Position(gs, waiting) == 1;
    var hs := [Guild(a, GS_REMOVE), Guild(waiting, 1)];
    assert Saved(gs, 0) == hs;
    var guest := [Guild(a, GS_REMOVE)];
    assert hs[..1] == guest && guest[..0] == [];
    assert Unloaded([]) == [] && Kept([]) == [];
    assert Kept(guest) == [] && Unloaded(guest) == guest;
    var next := Guest(b, waiting);
    assert Loaded([], next[..1]) by {
      assert next[..1][..0] == [];
    }
    assert [Guild(waiting, 1)][..0] == [];
  }

  // The next tick looks for the guest that has gone, and finds nothing to do.
  lemma GuestIsMissed(a: int, b: int, waiting: int)
    requires 0 < a && 0 < b && 0 < waiting && a != b && a != waiting && b != waiting
    ensures var gs := Guest(b, waiting);
      && Proper(gs) && Awaits(gs, waiting) && NextLast(gs, a) == 0 && !Saves(gs, a, waiting)
      && Loaded(Kept(Saved(gs, Pick(gs, a))), gs)
  {
    hide Position, FirstDirty, Kept, Loaded;
    var gs := Guest(b, waiting);
    assert gs[0].id == b && gs[1].id == waiting;
    assert Position(gs, waiting) == 1 && Position(gs, a) == 2;
    KeptAll(gs);
    NoneLoaded(gs);
  }

  lemma {:induction false} KeptAll(gs: seq<Guild>)
    requires forall i :: 0 <= i < |gs| ==> gs[i].flags != GS_REMOVE
    ensures Kept(gs) == gs
  {
    if gs != [] {
      KeptAll(gs[..|gs| - 1]);
    }
  }
}
