/** Players, days and the search for the next role whose turn it is. */
module Days {
  import opened Roles

  datatype Player = Player(
    id: int,
    name: string,
    role: Role,
    timesTargetedByCaptain: int,
    timesTargetedBySheriff: int,
    timesTargetedByProstitute: int,
    timesTargetedByMafiaBoss: int)

  /** The targets one role chose on a day. */
  datatype Action = Action(targets: seq<int>)

  /** One day of the game: the players alive on it and, per role (indexed by
      `RoleIndex`), the action that role took. Days are values: starting a new
      day copies the previous one. */
  datatype Day = Day(players: seq<Player>, actions: seq<Action>)

  /** The actions of a freshly constructed day: one empty action per role. */
  function EmptyActions(): (acts: seq<Action>)
    ensures |acts| == RoleCount
    ensures forall r :: 0 <= r < RoleCount ==> acts[r].targets == []
  {
    seq(RoleCount, _ => Action([]))
  }

  /** A new player as the "add player" dialog creates it. */
  function NewPlayer(id: int, name: string): Player
  {
    Player(id, name, NoRole, 0, 0, 0, 0)
  }

  /** The shape every day keeps: one action per role, and players carrying
      distinct ids, all handed out below the id counter. */
  ghost predicate WellFormedDay(day: Day, idCounter: int)
  {
    && |day.actions| == RoleCount
    && (forall i :: 0 <= i < |day.players| ==> 0 < day.players[i].id < idCounter)
    && (forall i, j :: 0 <= i < j < |day.players| ==> day.players[i].id != day.players[j].id)
  }

  /** The players of a day with the one at `index` erased. */
  function RemoveAt(players: seq<Player>, index: nat): (rest: seq<Player>)
    requires index < |players|
    ensures |rest| == |players| - 1
    ensures forall i :: 0 <= i < index ==> rest[i] == players[i]
    ensures forall i :: index <= i < |rest| ==> rest[i] == players[i + 1]
  {
    players[..index] + players[index + 1..]
  }

  /** Erasing a player keeps a day well formed. */
  lemma RemoveAtKeepsWellFormed(day: Day, index: nat, idCounter: int)
    requires WellFormedDay(day, idCounter)
    requires index < |day.players|
    ensures WellFormedDay(day.(players := RemoveAt(day.players, index)), idCounter)
  {
  }

  /** Appending a player under the counter's id, and then raising the
      counter, keeps a day well formed. */
  lemma AppendKeepsWellFormed(day: Day, p: Player, idCounter: int)
    requires WellFormedDay(day, idCounter)
    requires 0 < p.id == idCounter
    ensures WellFormedDay(day.(players := day.players + [p]), idCounter + 1)
  {
  }

  /** `Day::HavePlayersWithRole`: does any of `players` hold `role`? */
  function HavePlayersWithRole(players: seq<Player>, role: Role): (b: bool)
    ensures b <==> exists i :: 0 <= i < |players| && players[i].role == role
  {
    if players == [] then false
    else players[0].role == role || HavePlayersWithRole(players[1..], role)
  }

  /** The first position at or after `from` in `order` whose role some of
      `players` holds: the turn `Game::NextTurn` stops at, searching the day
      without running past the end of the order. */
  function FirstMatchFrom(players: seq<Player>, order: seq<Role>, from: nat): (m: Option<nat>)
    requires from <= |order|
    ensures m.Some? ==> from <= m.value < |order| && HavePlayersWithRole(players, order[m.value])
    ensures m.Some? ==> forall j :: from <= j < m.value ==> !HavePlayersWithRole(players, order[j])
    ensures m.None? ==> forall j :: from <= j < |order| ==> !HavePlayersWithRole(players, order[j])
    decreases |order| - from
  {
    if from == |order| then None
    else if HavePlayersWithRole(players, order[from]) then Some(from)
    else FirstMatchFrom(players, order, from + 1)
  }

  /** Scanning a permutation from its start always finds a turn for a day that
      has players: the first player's own role is somewhere in the order. */
  lemma FirstMatchFromStartExists(players: seq<Player>, order: seq<Role>)
    requires IsPermutation(order)
    requires players != []
    ensures FirstMatchFrom(players, order, 0).Some?
  {
    var r := players[0].role;
    assert r in order;
    var k :| 0 <= k < |order| && order[k] == r;
    assert HavePlayersWithRole(players, order[k]);
  }

  /** The first match is the only position that has a match and none before it. */
  lemma FirstMatchIsUnique(players: seq<Player>, order: seq<Role>, from: nat, k: nat)
    requires from <= k < |order|
    requires HavePlayersWithRole(players, order[k])
    requires forall j :: from <= j < k ==> !HavePlayersWithRole(players, order[j])
    ensures FirstMatchFrom(players, order, from) == Some(k)
  {
  }

  /** Where the loop of `Game::NextTurn`, as written, reads `role_order` when
      it stops: a match in the active day after `from`; otherwise, after
      appending a copy of `last`, the first match in that copy; but when the
      copy has no players `SetFirstActiveRole` does nothing and the index
      stays at `|order|`, one past the end. */
  function StopIndexAsWritten(active: seq<Player>, last: seq<Player>, order: seq<Role>, from: nat): (k: nat)
    requires IsPermutation(order)
    requires from <= |order|
    ensures k <= |order|
    ensures k == |order| <==>
              FirstMatchFrom(active, order, from).None? && (last == [] || FirstMatchFrom(last, order, 0).None?)
  {
    match FirstMatchFrom(active, order, from)
    case Some(k) => k
    case None =>
      if last == [] then |order|
      else match FirstMatchFrom(last, order, 0)
        case Some(k) => k
        case None => |order|
  }

  /** With the current day emptied of players, pressing "next" drives the
      as-written loop to read the turn order at index `RoleCount`, outside
      the array. */
  lemma NextTurnOnEmptyDayOverruns(order: seq<Role>, from: nat)
    requires IsPermutation(order)
    requires from <= RoleCount
    ensures StopIndexAsWritten([], [], order, from) == RoleCount
  {
  }

  /** When the copied day has players, the as-written loop stops inside the
      order, on a turn one of the searched day's players can take. */
  lemma NextTurnStaysInOrder(active: seq<Player>, last: seq<Player>, order: seq<Role>, from: nat)
    requires IsPermutation(order)
    requires from <= RoleCount
    requires last != []
    ensures StopIndexAsWritten(active, last, order, from) < RoleCount
  {
    FirstMatchFromStartExists(last, order);
  }
}
