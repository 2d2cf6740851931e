/** The per-faction head count shown under the turn list. */
module Summary {
  import opened Roles
  import opened Days

  /** How many of `players` play for faction `f`. */
  function FactionCount(players: seq<Player>, f: Faction): (n: nat)
    ensures n <= |players|
  {
    if players == [] then 0
    else FactionCount(players[..|players| - 1], f)
         + (if RoleToFaction(players[|players| - 1].role) == f then 1 else 0)
  }

  /** The count a summary map records for `f`; a missing entry stands for zero. */
  function Entry(summary: map<Faction, nat>, f: Faction): nat
  {
    if f in summary then summary[f] else 0
  }

  /** The sum of all entries of a summary. */
  function Total(summary: map<Faction, nat>): nat
  {
    Entry(summary, Peaceful) + Entry(summary, MafiaFaction)
    + Entry(summary, YakuzaFaction) + Entry(summary, KillerFaction)
  }

  /** Every player is counted in exactly one faction. */
  lemma {:induction false} FactionCountsCoverPlayers(players: seq<Player>)
    ensures FactionCount(players, Peaceful) + FactionCount(players, MafiaFaction)
            + FactionCount(players, YakuzaFaction) + FactionCount(players, KillerFaction)
            == |players|
  {
    if players != [] {
      FactionCountsCoverPlayers(players[..|players| - 1]);
    }
  }

  /** The faction summary of the viewed day, as `Tick` builds it: one pass
      over the players, incrementing the entry of each player's faction (an
      entry is created at zero on first use), so factions without players
      have no entry. */
  method FactionSummary(players: seq<Player>) returns (summary: map<Faction, nat>)
    ensures forall f :: f in summary <==> FactionCount(players, f) > 0
    ensures forall f :: f in summary ==> summary[f] == FactionCount(players, f)
    ensures Total(summary) == |players|
  {
    summary := map[];
    var i := 0;
    while i < |players|
      invariant 0 <= i <= |players|
      invariant forall f :: f in summary <==> FactionCount(players[..i], f) > 0
      invariant forall f :: f in summary ==> summary[f] == FactionCount(players[..i], f)
    {
      assert players[..i + 1][..i] == players[..i];
      var f := RoleToFaction(players[i].role);
      summary := summary[f := Entry(summary, f) + 1];
      i := i + 1;
    }
    assert players[..|players|] == players;
    FactionCountsCoverPlayers(players);
  }
}
