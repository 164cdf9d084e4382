// The loop of the timer, as far as it goes.
module SaveLoop {
  import opened SaveTurns
  import opened Sealing

  lemma KeptStep(gs: seq<Guild>, n: nat)
    requires n < |gs|
    ensures Kept(gs[..n + 1]) == Kept(gs[..n]) + if gs[n].flags == GS_REMOVE then [] else [gs[n]]
    ensures Unloaded(gs[..n + 1]) == Unloaded(gs[..n]) + if gs[n].flags == GS_REMOVE then [gs[n]] else []
  {
    assert gs[..n + 1][..n] == gs[..n];
  }

  // The state of the loop before it looks at guild i.
  ghost function Phase(gs: seq<Guild>, last: int, i: nat): int
    requires i <= |gs|
  {
    if Pick(gs, last) < i then 2 else if last == 0 || Position(gs, last) < i then 1 else 0
  }

  // What has been written by then, after what was written before.
  ghost function Written(gs: seq<Guild>, last: int, state: int, before: seq<(int, Flags)>): seq<(int, Flags)>
    requires state == 2 ==> Pick(gs, last) < |gs|
  {
    if state == 2 then before + [(gs[Pick(gs, last)].id, Unsaved(gs[Pick(gs, last)].flags))] else before
  }

  lemma PhaseStep(gs: seq<Guild>, last: int, i: nat)
    requires i < |gs| && Proper(gs)
    ensures var s := Phase(gs, last, i);
      && (s == 0 && gs[i].id == last ==> Phase(gs, last, i + 1) == 1)
      && (s == 0 && gs[i].id != last ==> Phase(gs, last, i + 1) == 0)
      && (s == 1 && Dirty(gs[i].flags) ==> Pick(gs, last) == i)
      && (s == 1 && !Dirty(gs[i].flags) ==> Phase(gs, last, i + 1) == 1)
      && (s == 2 ==> Phase(gs, last, i + 1) == 2)
      && (Pick(gs, last) == i ==> s == 1)
  {
    var p := Position(gs, last);
  }

  lemma {:induction false} KeptProper(gs: seq<Guild>)
    requires Proper(gs)
    ensures Proper(Kept(gs))
    decreases |gs|
  {
    if gs != [] {
      var n := |gs| - 1;
      KeptProper(gs[..n]);
      var ks := Kept(gs[..n]);
      forall i | 0 <= i < |ks|
        ensures ks[i].id != gs[n].id
      {
        KeptIsIn(gs[..n], i);
        var j :| 0 <= j < n && gs[..n][j] == ks[i];
        assert gs[j] == ks[i];
      }
    }
  }

  lemma SavedProper(gs: seq<Guild>, last: int)
    requires Proper(gs)
    ensures Proper(Kept(Saved(gs, Pick(gs, last))))
    ensures Phase(gs, last, |gs|) == 2 <==> Pick(gs, last) < |gs|
    ensures NextLast(gs, last) >= 0
  {
    KeptProper(Saved(gs, Pick(gs, last)));
  }

  lemma KeptIsIn(gs: seq<Guild>, i: nat)
    requires i < |Kept(gs)|
    ensures Kept(gs)[i] in gs
  {
    WhichAreKept(gs);
    assert Kept(gs)[i] in Kept(gs);
  }

  // What the guilds in memory and the position in them are when the loop is about to look at
  // guild number `done` of those that there were; sealed.
  ghost predicate Midway(gs: seq<Guild>, last: int, done: nat, guilds: seq<Guild>, i: nat)
  {
    && done <= |gs| && i <= |guilds| && |guilds| - i == |gs| - done
    && forall k :: Unfold(k) ==>
         var kept := Kept(Saved(gs, Pick(gs, last))[..done]);
         i == |kept| && guilds == kept + gs[done..]
  }

  ghost predicate Dropped(gs: seq<Guild>, last: int, done: nat, before: seq<Guild>, unloaded: seq<Guild>)
  {
    forall k :: Unfold(k) ==>
      done <= |gs| && unloaded == before + Unloaded(Saved(gs, Pick(gs, last))[..done])
  }

  // The state, the id saved last and the log at that point.
  ghost predicate Track(gs: seq<Guild>, last: int, done: nat, state: int, lastId: int,
                        before: seq<(int, Flags)>, written: seq<(int, Flags)>)
  {
    forall k :: Unfold(k) ==>
      && done <= |gs| && state == Phase(gs, last, done)
      && lastId == (if state == 2 then gs[Pick(gs, last)].id else last)
      && written == Written(gs, last, state, before)
  }

  lemma TrackIs(gs: seq<Guild>, last: int, done: nat, state: int, lastId: int,
                before: seq<(int, Flags)>, written: seq<(int, Flags)>)
    requires done <= |gs|
    ensures Track(gs, last, done, state, lastId, before, written) <==>
      && state == Phase(gs, last, done)
      && lastId == (if state == 2 then gs[Pick(gs, last)].id else last)
      && written == Written(gs, last, state, before)
  {
    assert Unfold(0);
  }

  lemma LoopBegins(gs: seq<Guild>, last: int, before: seq<Guild>, wrote: seq<(int, Flags)>)
    ensures Midway(gs, last, 0, gs, 0) && Dropped(gs, last, 0, before, before)
    ensures Track(gs, last, 0, if last == 0 then 1 else 0, last, wrote, wrote)
  {
    var after := Saved(gs, Pick(gs, last));
    assert after[..0] == [] && gs[0..] == gs;
    assert before + [] == before;
  }

  lemma NextGuild(gs: seq<Guild>, last: int, done: nat, guilds: seq<Guild>, i: nat)
    requires Midway(gs, last, done, guilds, i) && i < |guilds|
    ensures done < |gs| && guilds[i] == gs[done]
  {
    assert Unfold(0);
  }

  lemma WithoutOne(kept: seq<Guild>, rest: seq<Guild>, guilds: seq<Guild>)
    requires guilds == kept + rest && rest != []
    ensures guilds[..|kept|] + guilds[|kept| + 1..] == kept + rest[1..]
  {
  }

  lemma WithOne(kept: seq<Guild>, rest: seq<Guild>, guilds: seq<Guild>, g: Guild)
    requires guilds == kept + rest && rest != []
    ensures guilds[|kept| := g] == kept + [g] + rest[1..]
  {
  }

  lemma MidwayIs(gs: seq<Guild>, last: int, done: nat, guilds: seq<Guild>, i: nat)
    requires done <= |gs|
    ensures var kept := Kept(Saved(gs, Pick(gs, last))[..done]);
      Midway(gs, last, done, guilds, i) <==> i == |kept| && guilds == kept + gs[done..]
  {
    assert Unfold(0);
  }

  lemma DroppedIs(gs: seq<Guild>, last: int, done: nat, before: seq<Guild>, unloaded: seq<Guild>)
    requires done <= |gs|
    ensures Dropped(gs, last, done, before, unloaded) <==>
      unloaded == before + Unloaded(Saved(gs, Pick(gs, last))[..done])
  {
    assert Unfold(0);
  }

  lemma Drop(gs: seq<Guild>, last: int, done: nat, guilds: seq<Guild>, i: nat,
             before: seq<Guild>, unloaded: seq<Guild>)
    requires done < |gs| && i < |guilds|
    requires Midway(gs, last, done, guilds, i) && Dropped(gs, last, done, before, unloaded)
    requires Saved(gs, Pick(gs, last))[done].flags == GS_REMOVE
    ensures Midway(gs, last, done + 1, guilds[..i] + guilds[i + 1..], i)
    ensures Dropped(gs, last, done + 1, before, unloaded + [Saved(gs, Pick(gs, last))[done]])
  {
    var after := Saved(gs, Pick(gs, last));
    assert |after| == |gs|;
    hide Saved, Pick, Kept, Unloaded, Midway, Dropped;
    MidwayIs(gs, last, done, guilds, i);
    DroppedIs(gs, last, done, before, unloaded);
    KeptStep(after, done);
    WithoutOne(Kept(after[..done]), gs[done..], guilds);
    assert gs[done..][1..] == gs[done + 1..];
    MidwayIs(gs, last, done + 1, guilds[..i] + guilds[i + 1..], i);
    DroppedIs(gs, last, done + 1, before, unloaded + [after[done]]);
  }

  lemma Keep(gs: seq<Guild>, last: int, done: nat, guilds: seq<Guild>, i: nat,
             before: seq<Guild>, unloaded: seq<Guild>)
    requires done < |gs| && i < |guilds|
    requires Midway(gs, last, done, guilds, i) && Dropped(gs, last, done, before, unloaded)
    requires Saved(gs, Pick(gs, last))[done].flags != GS_REMOVE
    ensures Midway(gs, last, done + 1, guilds[i := Saved(gs, Pick(gs, last))[done]], i + 1)
    ensures Dropped(gs, last, done + 1, before, unloaded)
  {
    var after := Saved(gs, Pick(gs, last));
    assert |after| == |gs|;
    hide Saved, Pick, Kept, Unloaded, Midway, Dropped;
    MidwayIs(gs, last, done, guilds, i);
    DroppedIs(gs, last, done, before, unloaded);
    KeptStep(after, done);
    WithOne(Kept(after[..done]), gs[done..], guilds, after[done]);
    assert gs[done..][1..] == gs[done + 1..];
    MidwayIs(gs, last, done + 1, guilds[i := after[done]], i + 1);
    DroppedIs(gs, last, done + 1, before, unloaded);
  }

  lemma LoopEnds(gs: seq<Guild>, last: int, done: nat, guilds: seq<Guild>, i: nat,
             before: seq<Guild>, unloaded: seq<Guild>)
    requires Midway(gs, last, done, guilds, i) && i == |guilds| && Dropped(gs, last, done, before, unloaded)
    ensures done == |gs| && guilds == Kept(Saved(gs, Pick(gs, last)))
    ensures unloaded == before + Unloaded(Saved(gs, Pick(gs, last)))
  {
    assert Unfold(0);
    var after := Saved(gs, Pick(gs, last));
    assert after[..done] == after;
    assert guilds == Kept(after) + [];
  }
}
