/** The loop that syncs at intervals (crates/syncer-agent/src/main.rs:715-740). */
module SyncLoop {
  import opened Wrappers
  import opened Domain
  import opened SyncEngine
  import opened Agent
  import opened PeerServer
  import Rounds

  /** How the k-th round ends. */
  ghost function RoundResult(w: World, channel: Channel, limit: U64, clock: nat -> nat, k: nat): Result<(nat, nat), CoreError> {
    RunSyncOnce(Rounds.AfterRounds(w, channel, limit, Rounds.Turns(Rounds.Always, clock), k), channel, limit, clock(k)).result
  }

  lemma NextRound(w: World, channel: Channel, limit: U64, clock: nat -> nat, k: nat)
    ensures var turns := Rounds.Turns(Rounds.Always, clock);
      var done := RunSyncOnce(Rounds.AfterRounds(w, channel, limit, turns, k), channel, limit, clock(k));
      Rounds.AfterRounds(w, channel, limit, turns, k + 1) == done.world && RoundResult(w, channel, limit, clock, k) == done.result
  {
    hide RunSyncOnce;
  }

  lemma NoRound(w: World, channel: Channel, limit: U64, clock: nat -> nat)
    ensures Rounds.AfterRounds(w, channel, limit, Rounds.Turns(Rounds.Always, clock), 0) == w
  {
  }

  /** Runs rounds until `iterations` are done (one at least) or one fails; the i-th
      round happens at `clock(i)`. The result is that of the value-level rounds, so
      that convergence holds of the loop. */
  method Loop(local: Folder, peer: Folder, channel: Channel, limit: U64, iterations: U64, clock: nat -> nat)
    returns (rounds: nat, r: Result<(), CoreError>)
    requires Apart(local, peer)
    modifies local, local.db, peer, peer.db
    ensures WorldOf(local, peer) == Rounds.AfterRounds(old(WorldOf(local, peer)), channel, limit, Rounds.Turns(Rounds.Always, clock), rounds)
    ensures r.Ok? ==> rounds == Max(1, iterations)
    ensures 1 <= rounds <= Max(1, iterations)
    ensures forall k :: 0 <= k < rounds - 1 ==> RoundResult(old(WorldOf(local, peer)), channel, limit, clock, k).Ok?
    ensures r.Ok? <==> RoundResult(old(WorldOf(local, peer)), channel, limit, clock, rounds - 1).Ok?
    ensures r.Err? ==> r.error == RoundResult(old(WorldOf(local, peer)), channel, limit, clock, rounds - 1).error
  {
    hide RunSyncOnce, RoundResult, Rounds.AfterRounds;
    ghost var start := WorldOf(local, peer);
    NoRound(start, channel, limit, clock);
    rounds := 0;
    while true
      invariant rounds < Max(1, iterations)
      invariant forall k :: 0 <= k < rounds ==> RoundResult(start, channel, limit, clock, k).Ok?
      invariant WorldOf(local, peer) == Rounds.AfterRounds(start, channel, limit, Rounds.Turns(Rounds.Always, clock), rounds)
      decreases Max(1, iterations) - rounds
    {
      var output := RunOnce(local, peer, channel, limit, clock(rounds));
      NextRound(start, channel, limit, clock, rounds);
      rounds := rounds + 1;
      if output.Err? {
        return rounds, Err(output.error);
      }
      if rounds >= iterations {
        return rounds, Ok(());
      }
    }
  }
}
