// The timer itself.
module SaveTimer {
  import opened SaveTurns
  import opened SaveLoop

  class Scheduler {
    // guild_db
    var guilds: seq<Guild>
    var lastId: int
    // What was written to the database, and what was dropped from memory.
    ghost var written: seq<(int, Flags)>
    ghost var unloaded: seq<Guild>

    ghost predicate Valid()
      reads this
    {
      Proper(guilds) && lastId >= 0
    }

    constructor ()
      ensures Valid() && guilds == [] && lastId == 0 && written == [] && unloaded == []
    {
      guilds, lastId, written, unloaded := [], 0, [], [];
    }

    // Saves the guild at position i if it is due, which changes the state and the guild.
    method MaySave(i: nat, state: int, ghost gs: seq<Guild>, ghost last: int, ghost done: nat)
      returns (next: int, g: Guild)
      requires Proper(gs) && i < |guilds| && done < |gs| && guilds[i] == gs[done]
      requires state == Phase(gs, last, done) && lastId == if state == 2 then gs[Pick(gs, last)].id else last
      modifies this`lastId, this`written
      ensures next == Phase(gs, last, done + 1) && g == Saved(gs, Pick(gs, last))[done]
      ensures lastId == if next == 2 then gs[Pick(gs, last)].id else last
      ensures written == if state == next then old(written) else Written(gs, last, next, old(written))
      ensures next == 2 ==> Pick(gs, last) < |gs|
      ensures state == 2 ==> next == 2
    {
      PhaseStep(gs, last, done);
      next, g := state, guilds[i];
      if state == 0 && g.id == lastId {
        next := 1;
      } else if state == 1 && Dirty(g.flags) {
        written := written + [(g.id, Unsaved(g.flags))];
        g := g.(flags := Cleaned(g.flags));
        lastId := g.id;
        next := 2;
      }
    }

    // inter_guild_save_timer
    method SaveTick()
      requires Valid()
      modifies this
      ensures var gs := old(guilds); var k := Pick(gs, old(lastId));
        && guilds == Kept(Saved(gs, k)) && unloaded == old(unloaded) + Unloaded(Saved(gs, k))
        && lastId == NextLast(gs, old(lastId))
        && written == old(written) + if k < |gs| then [(gs[k].id, Unsaved(gs[k].flags))] else []
      ensures Valid()
    {
      ghost var gs, last := guilds, lastId;
      var state := VisitAll();
      LoopEnds(gs, last, |gs|, guilds, |guilds|, old(unloaded), unloaded);
      TrackIs(gs, last, |gs|, state, lastId, old(written), written);
      if state != 2 {
        lastId := 0;
      }
      SavedProper(gs, last);
    }

    // The loop over all guilds; returns its last state.
    method VisitAll() returns (state: int)
      requires Valid()
      modifies this
      ensures var gs := old(guilds); var last := old(lastId);
        && Midway(gs, last, |gs|, guilds, |guilds|) && Dropped(gs, last, |gs|, old(unloaded), unloaded)
        && Track(gs, last, |gs|, state, lastId, old(written), written)
    {
      hide Midway, Dropped, Track;
      // 0: has not reached the guild saved last; 1: ready to save; 2: has saved one.
      state := if lastId == 0 then 1 else 0;
      ghost var gs, last := guilds, lastId;
      ghost var done: nat := 0;
      LoopBegins(gs, last, unloaded, written);
      var i: nat := 0;
      while i < |guilds|
        invariant Midway(gs, last, done, guilds, i) && Dropped(gs, last, done, old(unloaded), unloaded)
        invariant Track(gs, last, done, state, lastId, old(written), written)
        invariant i <= |guilds| && |guilds| - i == |gs| - done
        decreases |guilds| - i
      {
        state, i := Visit(i, state, gs, last, done, old(unloaded), old(written));
        done := done + 1;
      }
    }

    // One turn of the loop; returns the new state and the position to go on from.
    method Visit(i: nat, state: int, ghost gs: seq<Guild>, ghost last: int, ghost done: nat,
                 ghost before: seq<Guild>, ghost wrote: seq<(int, Flags)>)
      returns (next: int, i': nat)
      requires Proper(gs) && i < |guilds| && Midway(gs, last, done, guilds, i)
      requires Dropped(gs, last, done, before, unloaded) && Track(gs, last, done, state, lastId, wrote, written)
      modifies this
      ensures Midway(gs, last, done + 1, guilds, i') && Dropped(gs, last, done + 1, before, unloaded)
      ensures Track(gs, last, done + 1, next, lastId, wrote, written)
      ensures i' <= |guilds| && |guilds| - i' == |old(guilds)| - i - 1
    {
      NextGuild(gs, last, done, guilds, i);
      TrackIs(gs, last, done, state, lastId, wrote, written);
      var g;
      next, g := MaySave(i, state, gs, last, done);
      TrackIs(gs, last, done + 1, next, lastId, wrote, written);
      i' := i;
      if g.flags == GS_REMOVE {
        Drop(gs, last, done, guilds, i, before, unloaded);
        unloaded := unloaded + [g];
        guilds := guilds[..i] + guilds[i + 1..];
      } else {
        Keep(gs, last, done, guilds, i, before, unloaded);
        guilds := guilds[i := g];
        i' := i + 1;
      }
    }
  }
}
