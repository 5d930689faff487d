/** Caches along whole runs: synchronising at arbitrary points, restarting from saved vectors, and rebuilding all
    agree. */
module Syncing {
  import opened Types
  import opened Store
  import opened Cache
  import opened Runs

  /** The contents of one cache that synchronises at the given states of a run, first from nothing. */
  ghost function Replayed(states: seq<State>, points: seq<nat>): Contents
    requires forall i :: 0 <= i < |points| ==> points[i] < |states|
  {
    if points == [] then map[]
    else
      var n := |points| - 1;
      Resynced(Replayed(states, points[..n]),
        if n == 0 then -1 else states[points[n - 1]].generation, states[points[n]])
  }

  ghost function ReplayedVectors(states: seq<State>, points: seq<nat>): map<Id, Vector>
    requires forall i :: 0 <= i < |points| ==> points[i] < |states|
  {
    if points == [] then map[]
    else
      var n := |points| - 1;
      ResyncedVectors(ReplayedVectors(states, points[..n]),
        if n == 0 then -1 else states[points[n - 1]].generation, states[points[n]], -1)
  }

  ghost predicate Schedule(states: seq<State>, points: seq<nat>) {
    && (forall i :: 0 <= i < |points| ==> points[i] < |states|)
    && (forall i, j :: 0 <= i < j < |points| ==> points[i] <= points[j])
  }

  /** Over any run of commits, and whenever along it a cache synchronised, its contents and vectors after the last
      synchronisation are those a cache built from scratch at that state would have. */
  lemma {:induction false} SyncsAtAnyPointsAreRebuilds(states: seq<State>, points: seq<nat>)
    requires Run(states) && Schedule(states, points) && points != []
    ensures Replayed(states, points) == Live(states[points[|points| - 1]])
    ensures ReplayedVectors(states, points) == VectorsOf(Live(states[points[|points| - 1]]))
  {
    hide Run, Resynced, ResyncedVectors, Live, VectorsOf, Inv, Later, Evolves, Keyed;
    var n := |points| - 1;
    var t := states[points[n]];
    RunInv(states, points[n]);
    InvParts(t);
    if n == 0 {
      FirstSyncIsRebuild(t);
    } else {
      SyncsAtAnyPointsAreRebuilds(states, points[..n]);
      RunAdvances(states, points[n - 1], points[n]);
      ResyncIsRebuild(states[points[n - 1]], t);
      ResyncVectorsIsRebuild(states[points[n - 1]], t);
    }
  }

  /** A process that restarts from vectors saved at any earlier state of the run, replays what is newer and prunes what
      is gone, holds exactly the vectors of a rebuild. */
  lemma RestartIsRebuild(states: seq<State>, saved: nat, now: nat)
    requires Run(states) && saved <= now < |states|
    ensures
      var replayed := ResyncedVectors(VectorsOf(Live(states[saved])), -1, states[now], states[saved].generation);
      (map id | id in replayed && id in Live(states[now]) :: replayed[id]) == VectorsOf(Live(states[now]))
  {
    hide Run, ResyncedVectors, Live, VectorsOf, Inv, Later, Evolves, Keyed;
    RunInv(states, now);
    InvParts(states[now]);
    RunAdvances(states, saved, now);
    RestoreReplayIsRebuild(states[saved], states[now]);
  }
}
