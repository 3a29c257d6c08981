/** A thread of the gateway client that nobody disturbs: what its steps come to is what the client's methods do in one
    go. So the interleaved runs are runs of the same jobs. */
module GatewayAlone {
  import opened GatewaySettlement
  import opened GatewayRuns
  import opened GatewayClient

  predicate IsOwn(step: Step, id: nat) { (step.Do? || step.NextEntry?) && step.id == id }

  /** A stretch of a run in which only this thread moves. */
  ghost predicate RunsAlone(price: string -> nat, states: seq<System>, steps: seq<Step>, id: nat) {
    && |states| == |steps| + 1
    && forall i :: 0 <= i < |steps| ==> IsOwn(steps[i], id) && Moves(price, states, steps, i)
  }

  /** The clock readings and answers the thread's entries met. */
  function Met(steps: seq<Step>): seq<Answer> {
    if steps == [] then []
    else (if steps[0].NextEntry? then [Answer(steps[0].now, steps[0].send)] else []) + Met(steps[1..])
  }

  predicate Done(s: System, id: nat) { id in s.threads && s.threads[id].todo == [] && s.threads[id].listed == [] }

  lemma RestRunsAlone(price: string -> nat, states: seq<System>, steps: seq<Step>, id: nat)
    requires RunsAlone(price, states, steps, id) && steps != []
    ensures RunsAlone(price, states[1..], steps[1..], id)
    ensures Enabled(states[0], steps[0]) && states[1] == Next(price, states[0], steps[0]) && IsOwn(steps[0], id)
  {
    assert Moves(price, states, steps, 0);
    var ss, ts := states[1..], steps[1..];
    forall i | 0 <= i < |ts| ensures IsOwn(ts[i], id) && Moves(price, ss, ts, i) {
      assert Moves(price, states, steps, i + 1);
    }
  }

  /** A thread with no entries listed comes to none. */
  lemma {:induction false} NothingListed(price: string -> nat, states: seq<System>, steps: seq<Step>, id: nat)
    requires RunsAlone(price, states, steps, id) && id in states[0].threads && states[0].threads[id].listed == []
    ensures Met(steps) == []
    decreases |steps|
  {
    if steps != [] {
      RestRunsAlone(price, states, steps, id);
      NothingListed(price, states[1..], steps[1..], id);
    }
  }

  /** Whatever a thread still has to do, if it gets to its end alone it has done all of that, and then flushed the
      entries it had listed as one flush does with the answers they met. */
  lemma {:induction false} AloneThreadsDoTheirJob(
    price: string -> nat, states: seq<System>, steps: seq<Step>, id: nat, answers: seq<Answer>, t: Tally)
    requires RunsAlone(price, states, steps, id) && id in states[0].threads && Done(states[|steps|], id)
    requires |answers| == |states[0].threads[id].listed| && Met(steps) <= answers
    ensures var thread := states[0].threads[id];
            states[|steps|].world == FlushAll(ApplyAll(states[0].world, thread.todo), thread.listed, answers, t).0
    decreases |steps|
  {
    if steps != [] {
      RestRunsAlone(price, states, steps, id);
      var s, thread, rest := states[0], states[0].threads[id], steps[1..];
      assert states[1..][0] == states[1] && states[1..][|rest|] == states[|steps|];
      if steps[0].Do? {
        AloneThreadsDoTheirJob(price, states[1..], rest, id, answers, t);
      } else {
        var a := answers[0];
        assert Met(steps) == [Answer(steps[0].now, steps[0].send)] + Met(rest);
        assert a == Met(steps)[0];
        var file := thread.listed[0];
        var o := FlushOutcome(file, a.now, a.send);
        if o.Unreachable? {
          NothingListed(price, states[1..], rest, id);
          AloneThreadsDoTheirJob(price, states[1..], rest, id, [], Count(t, o));
        } else {
          AloneThreadsDoTheirJob(price, states[1..], rest, id, answers[1..], Count(t, o));
        }
      }
    }
  }

  /** So a flush left alone, and a settlement left alone, are those of the client's methods. */
  lemma JobsLeftAlone(price: string -> nat, states: seq<System>, steps: seq<Step>, id: nat, first: System, start: Step, answers: seq<Answer>, t: Tally)
    requires Enabled(first, start) && (start.Settle? || start.CancelOrPending? || start.Flush?) && start.id == id
    requires RunsAlone(price, states, steps, id) && states[0] == Next(price, first, start) && Done(states[|steps|], id)
    requires start.Flush? ==> |answers| == |start.files| && Met(steps) <= answers
    ensures start.Settle? ==>
              states[|steps|].world == ApplyAll(first.world, SettleEffects(start.r, price(start.r.idempotencyKey), start.now, start.send))
    ensures start.CancelOrPending? ==>
              states[|steps|].world == ApplyAll(first.world, CancelEffects(start.r, start.dispatched, start.now, start.send))
    ensures start.Flush? ==> states[|steps|].world == FlushAll(first.world, start.files, answers, t).0
  {
    if start.Flush? {
      AloneThreadsDoTheirJob(price, states, steps, id, answers, t);
    } else {
      NothingListed(price, states, steps, id);
      AloneThreadsDoTheirJob(price, states, steps, id, [], t);
    }
  }

  /** A reservation is in its open file and the cache before the call; rehydrating caches what an open file holds,
      except where the cache knows better. Neither sends or settles anything. */
  lemma OpeningKeepsTheFile(price: string -> nat, s: System, r: Reservation, attemptId: string)
    ensures var w := Next(price, s, Reserve(r)).world;
            && w.disk.open == s.world.disk.open[r.attemptId := r] && w.cache == s.world.cache[r.attemptId := r]
            && w == s.world.(disk := s.world.disk.(open := w.disk.open), cache := w.cache)
    ensures attemptId in s.world.disk.open ==>
              var w := Next(price, s, Rehydrate(attemptId)).world;
              && attemptId in w.cache && w == s.world.(cache := w.cache)
              && w.cache[attemptId] == (if attemptId in s.world.cache then s.world.cache[attemptId] else s.world.disk.open[attemptId])
              && forall a :: a != attemptId ==> (a in w.cache <==> a in s.world.cache) && (a in w.cache ==> w.cache[a] == s.world.cache[a])
  {
  }
}
