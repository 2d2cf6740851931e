/** The game state of the Mafia game-master tool and the edits one frame of
    its user interface makes to it. */
module MafiaGame {
  import opened Roles
  import opened Days
  import opened Summary
  import opened Navigation

  /** The turn order. */
  class Settings {
    const roleOrder: array<Role>

    constructor ()
      ensures fresh(roleOrder) && roleOrder.Length == RoleCount
    {
      roleOrder := new Role[RoleCount];
    }

    /** `Settings::SetDefault`: position i of the order holds `Role(i)`. */
    method SetDefault()
      requires roleOrder.Length == RoleCount
      modifies roleOrder
      ensures forall i :: 0 <= i < RoleCount ==> roleOrder[i] == RoleAt(i)
      ensures IsPermutation(roleOrder[..])
    {
      var i := 0;
      while i < RoleCount
        invariant 0 <= i <= RoleCount
        invariant forall k :: 0 <= k < i ==> roleOrder[k] == RoleAt(k)
      {
        roleOrder[i] := RoleAt(i);
        i := i + 1;
      }
      assert roleOrder[..] == DefaultOrder();
      DefaultOrderIsPermutation();
    }
  }

  /** One game: its days, the viewed day, the turn (an index into the turn
      order) and the roles switched on for it. */
  class Round {
    var days: seq<Day>
    var activeDay: int
    var activeRole: int
    const enabledRoles: array<bool>

    /** Starts with no days, day 0 and turn 0; only the mafia and the
        townspeople are switched on. */
    constructor ()
      ensures days == [] && activeDay == 0 && activeRole == 0
      ensures fresh(enabledRoles) && enabledRoles.Length == RoleCount
      ensures forall r: Role :: enabledRoles[RoleIndex(r)] <==> r in {Mafia, NoRole}
    {
      days := [];
      activeDay := 0;
      activeRole := 0;
      var enabled := new bool[RoleCount](_ => false);
      enabled[RoleIndex(NoRole)] := true;
      enabled[RoleIndex(Mafia)] := true;
      enabledRoles := enabled;
    }
  }

  /** Is the turn of `role` listed in the turn list of day `dayIndex`? From
      day 1 on only switched-on roles are listed; the townspeople's turn is
      not listed on day 0. */
  predicate TurnListed(role: Role, dayIndex: int, enabled: seq<bool>)
    requires |enabled| == RoleCount
  {
    !(dayIndex > 0 && !enabled[RoleIndex(role)]) && !(role == NoRole && dayIndex == 0)
  }

  /** Can the turn of `role` be taken on day `dayIndex`? From day 1 on, when
      some player of the day holds the role; on day 0, while roles are being
      handed out, when the role is switched on. */
  predicate TurnHasPlayers(role: Role, dayIndex: int, day: Day, enabled: seq<bool>)
    requires |enabled| == RoleCount
  {
    if dayIndex > 0 then HavePlayersWithRole(day.players, role) else enabled[RoleIndex(role)]
  }

  /** Does the turn-list pass of a frame clear the action of `role`? Only
      while the current (last) day is viewed, for a listed turn nobody can
      take. */
  predicate ClearsAction(role: Role, dayIndex: int, day: Day, enabled: seq<bool>, viewingCurrentDay: bool)
    requires |enabled| == RoleCount
  {
    viewingCurrentDay && TurnListed(role, dayIndex, enabled) && !TurnHasPlayers(role, dayIndex, day, enabled)
  }

  /** What the user did in one frame. */
  datatype Input =
    | NoInput
    | EditRole(player: nat, role: Role)
    | RemovePlayer(player: nat)
    | AddPlayer(name: string)
    | ToggleRole(turn: nat)
    | SelectTurn(turn: nat)
    | NextTurnPressed
    | Navigate(button: NavButton)
    | ConfirmNewGame

  /** The viewed day's players after the player-list step of a frame: an
      edit, removal or addition takes effect only while the current day is
      viewed, a removal only at a position of the list, and an addition only
      under a non-empty name, with the next id. */
  function EditPlayers(input: Input, players: seq<Player>, viewing: bool, nextId: int): seq<Player>
  {
    match input
    case EditRole(index, role) =>
      if viewing && index < |players| then players[index := players[index].(role := role)] else players
    case RemovePlayer(index) =>
      if viewing && index < |players| then RemoveAt(players, index) else players
    case AddPlayer(name) =>
      if viewing && name != "" then players + [NewPlayer(nextId, name)] else players
    case _ => players
  }

  /** Day `day` after the turn-list pass: the action of each role the pass
      clears is emptied, every other action is kept. */
  function ResetDay(day: Day, dayIndex: int, enabled: seq<bool>, viewing: bool): Day
    requires |enabled| == RoleCount && |day.actions| == RoleCount
  {
    day.(actions := seq(RoleCount, k requires 0 <= k < RoleCount =>
                          if ClearsAction(RoleAt(k), dayIndex, day, enabled, viewing) then Action([])
                          else day.actions[k]))
  }

  /** The days after the player-list step and the turn-list pass of a frame
      that views day `viewed`. */
  function FrameDays(days: seq<Day>, viewed: nat, input: Input, enabled: seq<bool>, nextId: int): seq<Day>
    requires viewed < |days| && |enabled| == RoleCount && |days[viewed].actions| == RoleCount
  {
    var viewing := viewed + 1 == |days|;
    var day := days[viewed];
    days[viewed := ResetDay(day.(players := EditPlayers(input, day.players, viewing, nextId)),
                            viewed, enabled, viewing)]
  }

  /** The whole effect of one frame on the state (`days`, viewed day, turn,
      switched-on roles, id counter), given the order and the clamped viewed
      day `viewed`. Every input goes through the player-list step and the
      turn-list pass (`FrameDays`). Then:
      - a check box flips its row's role when the row is listed on day 0;
      - a radio button makes its row the turn when the row is listed and
        its turn can be taken;
      - "next" on the current day with players moves to the next takeable
        turn, or appends a copy of the current day and starts it;
      - a navigation button views the day `NavTarget` picks and, when
        leaving the current day, moves to that day's first takeable turn;
      - "new game" leaves one day with the last day's players and no
        actions. */
  ghost predicate FrameEffect(input: Input, order: seq<Role>, days: seq<Day>, viewed: nat, role: int,
                              enabled: seq<bool>, nextId: int, days': seq<Day>, viewed': int, role': int,
                              enabled': seq<bool>, nextId': int)
    requires |order| == RoleCount && viewed < |days| && |enabled| == RoleCount
    requires |days[viewed].actions| == RoleCount && 0 <= role < RoleCount
  {
    var viewing := viewed + 1 == |days|;
    var passed := FrameDays(days, viewed, input, enabled, nextId);
    var players := days[viewed].players;
    && nextId' == nextId + (if input.AddPlayer? && viewing && input.name != "" then 1 else 0)
    && match input
       case ToggleRole(turn) =>
         && days' == passed && viewed' == viewed && role' == role
         && enabled' == if turn < RoleCount && viewed == 0 && TurnListed(order[turn], 0, enabled)
                        then enabled[RoleIndex(order[turn]) := !enabled[RoleIndex(order[turn])]]
                        else enabled
       case SelectTurn(turn) =>
         && days' == passed && viewed' == viewed && enabled' == enabled
         && role' == if turn < RoleCount && TurnListed(order[turn], viewed, enabled)
                        && TurnHasPlayers(order[turn], viewed, days[viewed], enabled)
                     then turn else role
       case NextTurnPressed =>
         var m := FirstMatchFrom(players, order, role + 1);
         && enabled' == enabled
         && if !viewing || players == [] then
              days' == passed && viewed' == viewed && role' == role
            else if m.Some? then
              days' == passed && viewed' == viewed && role' == m.value
            else
              days' == passed + [passed[viewed]] && viewed' == viewed + 1
              && FirstMatchFrom(players, order, 0) == Some(role')
       case Navigate(button) =>
         var t := NavTarget(button, viewed, |days|);
         && days' == passed && enabled' == enabled
         && viewed' == (if t.Some? then t.value else viewed)
         && if t.Some? && viewing && days[t.value].players != []
            then FirstMatchFrom(days[t.value].players, order, 0) == Some(role')
            else role' == role
       case ConfirmNewGame =>
         days' == [Day(days[|days| - 1].players, EmptyActions())] && viewed' == viewed
         && role' == role && enabled' == enabled
       case _ =>
         days' == passed && viewed' == viewed && role' == role && enabled' == enabled
  }

  class Game {
    const settings: Settings
    const round: Round
    var playerIdCounter: int

    ghost function Order(): seq<Role>
      reads settings, settings.roleOrder
    {
      settings.roleOrder[..]
    }

    ghost function Enabled(): seq<bool>
      reads round, round.enabledRoles
    {
      round.enabledRoles[..]
    }

    /** The shape of the state at every step: a permutation as turn order,
        at least one day, and well-formed days. */
    ghost predicate Consistent()
      reads this, settings, settings.roleOrder, round, round.enabledRoles
    {
      && IsPermutation(settings.roleOrder[..])
      && round.enabledRoles.Length == RoleCount
      && |round.days| > 0
      && 0 < playerIdCounter
      && (forall d :: 0 <= d < |round.days| ==> WellFormedDay(round.days[d], playerIdCounter))
    }

    /** The invariant between frames: consistent, and the turn is a position
        of the turn order. */
    ghost predicate Valid()
      reads this, settings, settings.roleOrder, round, round.enabledRoles
    {
      Consistent() && 0 <= round.activeRole < RoleCount
    }

    ghost function ActivePlayers(): seq<Player>
      reads round
      requires 0 <= round.activeDay < |round.days|
    {
      round.days[round.activeDay].players
    }

    ghost function LastDay(): Day
      reads round
      requires |round.days| > 0
    {
      round.days[|round.days| - 1]
    }

    /** `Game()`: the default order, one day with two sample players, and the
        first turn some player can take. */
    constructor ()
      ensures fresh(settings) && fresh(settings.roleOrder) && fresh(round) && fresh(round.enabledRoles)
      ensures Valid()
      ensures Order() == DefaultOrder()
      ensures round.days == [Day([Player(1, "Вася", NoRole, 0, 0, 0, 0),
                                  Player(2, "Петя", Mafia, 0, 0, 0, 0)], EmptyActions())]
      ensures playerIdCounter == 3
      ensures round.activeDay == 0 && round.activeRole == RoleIndex(Mafia)
      ensures forall r: Role :: round.enabledRoles[RoleIndex(r)] <==> r in {Mafia, NoRole}
    {
      settings := new Settings();
      round := new Round();
      playerIdCounter := 1;
      new;
      settings.SetDefault();
      var first := Day([], EmptyActions());
      first := first.(players := first.players + [Player(playerIdCounter, "Вася", NoRole, 0, 0, 0, 0)]);
      playerIdCounter := playerIdCounter + 1;
      first := first.(players := first.players + [Player(playerIdCounter, "Петя", Mafia, 0, 0, 0, 0)]);
      playerIdCounter := playerIdCounter + 1;
      round.days := round.days + [first];
      assert first.players == [Player(1, "Вася", NoRole, 0, 0, 0, 0), Player(2, "Петя", Mafia, 0, 0, 0, 0)];
      assert Order() == DefaultOrder();
      forall j | 0 <= j < RoleIndex(Mafia)
        ensures !HavePlayersWithRole(first.players, Order()[j])
      {
        assert Order()[j] == RoleAt(j);
      }
      FirstMatchIsUnique(first.players, Order(), 0, RoleIndex(Mafia));
      SetFirstActiveRole();
    }

    /** `Game::SetFirstActiveRole`: on a viewed day with players, moves to
        the first turn of the order that one of them can take; on a day
        without players, does nothing. */
    method SetFirstActiveRole()
      requires Consistent() && 0 <= round.activeDay < |round.days|
      modifies round
      decreases 1
      ensures Consistent()
      ensures round.days == old(round.days) && round.activeDay == old(round.activeDay)
      ensures old(ActivePlayers()) == [] ==> round.activeRole == old(round.activeRole)
      ensures old(ActivePlayers()) != [] ==>
                0 <= round.activeRole < RoleCount
                && FirstMatchFrom(ActivePlayers(), Order(), 0) == Some(round.activeRole)
    {
      if round.days[round.activeDay].players != [] {
        round.activeRole := -1;
        FirstMatchFromStartExists(ActivePlayers(), Order());
        NextTurn();
      }
    }

    /** `Game::NextTurn`: moves to the next turn of the order that a player
        of the viewed day can take. When no later turn is left the night is
        over: a copy of the last day is appended, viewed, and the search
        starts again from the first turn. The search stays inside the order
        only when a later turn exists or the copied day has players. */
    method NextTurn()
      requires Consistent() && 0 <= round.activeDay < |round.days|
      requires -1 <= round.activeRole < RoleCount
      requires FirstMatchFrom(ActivePlayers(), Order(), round.activeRole + 1).Some?
               || LastDay().players != []
      modifies round
      decreases if FirstMatchFrom(ActivePlayers(), Order(), round.activeRole + 1).Some? then 0 else 2
      ensures Valid()
      ensures 0 <= round.activeDay < |round.days|
      ensures HavePlayersWithRole(ActivePlayers(), Order()[round.activeRole])
      ensures var m := FirstMatchFrom(old(ActivePlayers()), Order(), old(round.activeRole) + 1);
              if m.Some? then
                && round.days == old(round.days)
                && round.activeDay == old(round.activeDay)
                && round.activeRole == m.value
              else
                && round.days == old(round.days) + [old(LastDay())]
                && round.activeDay == |round.days| - 1
                && FirstMatchFrom(old(LastDay()).players, Order(), 0) == Some(round.activeRole)
    {
      round.activeRole := round.activeRole + 1;
      while true
        invariant Consistent()
        invariant round.days == old(round.days) && round.activeDay == old(round.activeDay)
        invariant old(round.activeRole) + 1 <= round.activeRole <= RoleCount
        invariant forall j :: old(round.activeRole) + 1 <= j < round.activeRole ==>
                    !HavePlayersWithRole(ActivePlayers(), Order()[j])
        decreases RoleCount - round.activeRole
      {
        if round.activeRole == RoleCount {
          assert FirstMatchFrom(ActivePlayers(), Order(), old(round.activeRole) + 1).None?;
          round.days := round.days + [round.days[|round.days| - 1]];
          round.activeDay := |round.days| - 1;
          SetFirstActiveRole();
          assert round.days == old(round.days) + [old(LastDay())];
        }
        if HavePlayersWithRole(round.days[round.activeDay].players, settings.roleOrder[round.activeRole]) {
          if round.days == old(round.days) {
            FirstMatchIsUnique(ActivePlayers(), Order(), old(round.activeRole) + 1, round.activeRole);
          }
          break;
        }
        round.activeRole := round.activeRole + 1;
      }
    }
  
    predicate ViewingCurrentDay()
      reads round
    {
      round.activeDay + 1 == |round.days|
    }

    /** Editing a player's role on the viewed day: the player at `index`, if
        there is one, takes `role`; nothing else changes. */
    method ChangeRole(index: nat, role: Role)
      requires Valid() && 0 <= round.activeDay < |round.days|
      modifies round
      ensures Valid()
      ensures round.activeDay == old(round.activeDay) && round.activeRole == old(round.activeRole)
      ensures var day := old(round.days[round.activeDay]);
              round.days == if index < |day.players|
                            then old(round.days)[round.activeDay :=
                                   day.(players := day.players[index := day.players[index].(role := role)])]
                            else old(round.days)
    {
      var day := round.days[round.activeDay];
      if index < |day.players| {
        var players := day.players[index := day.players[index].(role := role)];
        assert forall i :: 0 <= i < |players| ==> players[i].id == day.players[i].id;
        round.days := round.days[round.activeDay := day.(players := players)];
      }
    }

    /** Confirming "remove player" erases the player at `index` from the
        viewed day, provided `index` is a position of its player list (the
        source marks "no removal" with the largest `size_t`, which never
        is). */
    method ErasePlayer(index: nat)
      requires Valid() && 0 <= round.activeDay < |round.days|
      modifies round
      ensures Valid()
      ensures round.activeDay == old(round.activeDay) && round.activeRole == old(round.activeRole)
      ensures var day := old(round.days[round.activeDay]);
              round.days == if index < |day.players|
                            then old(round.days)[round.activeDay := day.(players := RemoveAt(day.players, index))]
                            else old(round.days)
    {
      var day := round.days[round.activeDay];
      if index < |day.players| {
        RemoveAtKeepsWellFormed(day, index, playerIdCounter);
        round.days := round.days[round.activeDay := day.(players := RemoveAt(day.players, index))];
      }
    }

    /** Confirming "add player" appends a townsperson named `name` to the
        viewed day under the next id, an id no player of any day holds yet. */
    method AppendPlayer(name: string)
      requires Valid() && 0 <= round.activeDay < |round.days|
      modifies this, round
      ensures Valid()
      ensures round.activeDay == old(round.activeDay) && round.activeRole == old(round.activeRole)
      ensures playerIdCounter == old(playerIdCounter) + 1
      ensures var day := old(round.days[round.activeDay]);
              round.days == old(round.days)[round.activeDay :=
                              day.(players := day.players + [NewPlayer(old(playerIdCounter), name)])]
      ensures forall d, i :: 0 <= d < |old(round.days)| && 0 <= i < |old(round.days)[d].players| ==>
                old(round.days)[d].players[i].id != old(playerIdCounter)
    {
      var day := round.days[round.activeDay];
      var added := day.(players := day.players + [NewPlayer(playerIdCounter, name)]);
      AppendKeepsWellFormed(day, NewPlayer(playerIdCounter, name), playerIdCounter);
      playerIdCounter := playerIdCounter + 1;
      round.days := round.days[round.activeDay := added];
    }

    /** The pass over the turn list that clears, on the current day, the
        action of every listed turn nobody can take. Only the viewed day's
        actions change. */
    method ResetIdleActions()
      requires Valid() && 0 <= round.activeDay < |round.days|
      modifies round
      ensures Valid()
      ensures round.activeDay == old(round.activeDay) && round.activeRole == old(round.activeRole)
      ensures |round.days| == |old(round.days)|
      ensures forall d :: 0 <= d < |round.days| && d != round.activeDay ==> round.days[d] == old(round.days)[d]
      ensures ActivePlayers() == old(ActivePlayers())
      ensures forall r: Role ::
                round.days[round.activeDay].actions[RoleIndex(r)]
                == if ClearsAction(r, round.activeDay, old(round.days[round.activeDay]), Enabled(), old(ViewingCurrentDay()))
                   then Action([])
                   else old(round.days[round.activeDay]).actions[RoleIndex(r)]
      ensures round.days == old(round.days)[round.activeDay :=
                ResetDay(old(round.days[round.activeDay]), round.activeDay, Enabled(), old(ViewingCurrentDay()))]
    {
      var day := round.days[round.activeDay];
      var viewing := round.activeDay + 1 == |round.days|;
      var acts := day.actions;
      var i := 0;
      while i < RoleCount
        invariant 0 <= i <= RoleCount
        invariant |acts| == RoleCount
        invariant forall r: Role ::
                    acts[RoleIndex(r)]
                    == if r in settings.roleOrder[..i] && ClearsAction(r, round.activeDay, day, Enabled(), viewing)
                       then Action([])
                       else day.actions[RoleIndex(r)]
      {
        var role := settings.roleOrder[i];
        if !(round.activeDay > 0 && !round.enabledRoles[RoleIndex(role)]) {
          var havePlayers := if round.activeDay > 0 then HavePlayersWithRole(day.players, role)
                             else round.enabledRoles[RoleIndex(role)];
          if !(role == NoRole && round.activeDay == 0) && !havePlayers && viewing {
            acts := acts[RoleIndex(role) := Action([])];
          }
        }
        assert settings.roleOrder[..i + 1] == settings.roleOrder[..i] + [role];
        i := i + 1;
      }
      assert settings.roleOrder[..RoleCount] == Order();
      forall k | 0 <= k < RoleCount
        ensures acts[k] == ResetDay(day, round.activeDay, Enabled(), viewing).actions[k]
      {
        assert RoleIndex(RoleAt(k)) == k;
      }
      assert acts == ResetDay(day, round.activeDay, Enabled(), viewing).actions;
      round.days := round.days[round.activeDay := day.(actions := acts)];
    }

    /** The check box of turn-list row `turn`, shown on day 0 for listed
        turns, switches that row's role on or off. */
    method ToggleTurnRole(turn: nat)
      requires Valid() && 0 <= round.activeDay < |round.days|
      modifies round.enabledRoles
      ensures Valid()
      ensures turn < RoleCount && round.activeDay == 0 && TurnListed(Order()[turn], 0, old(Enabled())) ==>
                var k := RoleIndex(Order()[turn]);
                Enabled() == old(Enabled())[k := !old(Enabled())[k]]
      ensures !(turn < RoleCount && round.activeDay == 0 && TurnListed(Order()[turn], 0, old(Enabled()))) ==>
                Enabled() == old(Enabled())
    {
      if turn < RoleCount && round.activeDay == 0 {
        var role := settings.roleOrder[turn];
        if role != NoRole {
          var k := RoleIndex(role);
          round.enabledRoles[k] := !round.enabledRoles[k];
        }
      }
    }

    /** The radio button of turn-list row `turn` makes it the active turn,
        when the row is listed and its turn can be taken. */
    method ChooseTurn(turn: nat)
      requires Valid() && 0 <= round.activeDay < |round.days|
      modifies round
      ensures Valid()
      ensures round.days == old(round.days) && round.activeDay == old(round.activeDay)
      ensures var pick := turn < RoleCount
                          && TurnListed(Order()[turn], round.activeDay, Enabled())
                          && TurnHasPlayers(Order()[turn], round.activeDay, round.days[round.activeDay], Enabled());
              round.activeRole == if pick then turn else old(round.activeRole)
    {
      if turn < RoleCount {
        var role := settings.roleOrder[turn];
        var day := round.days[round.activeDay];
        if !(round.activeDay > 0 && !round.enabledRoles[RoleIndex(role)]) && !(role == NoRole && round.activeDay == 0) {
          var havePlayers := if round.activeDay > 0 then HavePlayersWithRole(day.players, role)
                             else round.enabledRoles[RoleIndex(role)];
          if havePlayers {
            round.activeRole := turn;
          }
        }
      }
    }

    /** The "next" button on the current day. A press on a day without
        players is ignored here; the source runs `NextTurn` anyway and reads
        the turn order out of range. */
    method NextTurnButton()
      requires Valid() && 0 <= round.activeDay < |round.days|
      requires ViewingCurrentDay()
      modifies round
      ensures Valid()
      ensures 0 <= round.activeDay < |round.days|
      ensures old(ActivePlayers()) == [] ==>
                round.days == old(round.days) && round.activeDay == old(round.activeDay)
                && round.activeRole == old(round.activeRole)
      ensures old(ActivePlayers()) != [] ==> HavePlayersWithRole(ActivePlayers(), Order()[round.activeRole])
      ensures old(ActivePlayers()) != [] ==>
                var m := FirstMatchFrom(old(ActivePlayers()), Order(), old(round.activeRole) + 1);
                if m.Some? then
                  round.days == old(round.days) && round.activeDay == old(round.activeDay) && round.activeRole == m.value
                else
                  && round.days == old(round.days) + [old(LastDay())]
                  && round.activeDay == |round.days| - 1
                  && FirstMatchFrom(old(LastDay()).players, Order(), 0) == Some(round.activeRole)
    {
      if round.days[round.activeDay].players != [] {
        NextTurn();
      }
    }

    /** A day-navigation button: views the day `NavTarget` picks. When the
        frame began on the current day, the turn moves to the first one the
        newly viewed day's players can take. */
    method SwitchDay(button: NavButton)
      requires Valid() && 0 <= round.activeDay < |round.days|
      modifies round
      ensures Valid()
      ensures round.days == old(round.days)
      ensures 0 <= round.activeDay < |round.days|
      ensures var t := NavTarget(button, old(round.activeDay), |old(round.days)|);
              round.activeDay == if t.Some? then t.value else old(round.activeDay)
      ensures var t := NavTarget(button, old(round.activeDay), |old(round.days)|);
              if t.Some? && old(ViewingCurrentDay()) && ActivePlayers() != []
              then FirstMatchFrom(ActivePlayers(), Order(), 0) == Some(round.activeRole)
              else round.activeRole == old(round.activeRole)
    {
      var target := NavTarget(button, round.activeDay, |round.days|);
      if target.Some? {
        var viewing := round.activeDay + 1 == |round.days|;
        round.activeDay := target.value;
        if viewing {
          SetFirstActiveRole();
        }
      }
    }

    /** Confirming "new game": a single day holding the players of the last
        day, in order, with no actions. The switched-on roles, the viewed day
        index and the turn are kept as they are. */
    method StartNewGame()
      requires Valid()
      modifies round
      ensures Valid()
      ensures round.days == [Day(old(LastDay()).players, EmptyActions())]
      ensures round.activeDay == old(round.activeDay) && round.activeRole == old(round.activeRole)
    {
      var players := round.days[|round.days| - 1].players;
      round.days := [Day(players, EmptyActions())];
    }

    /** The part of a frame every input goes through: the player-list edit,
        which acts only while the current day is viewed, then the turn-list
        pass over the viewed day. */
    method EditAndResetDay(input: Input)
      requires Valid() && 0 <= round.activeDay < |round.days|
      modifies this, round
      ensures Valid()
      ensures round.activeDay == old(round.activeDay) && round.activeRole == old(round.activeRole)
      ensures round.days == FrameDays(old(round.days), old(round.activeDay), input, Enabled(), old(playerIdCounter))
      ensures playerIdCounter == old(playerIdCounter)
                                 + if input.AddPlayer? && old(ViewingCurrentDay()) && input.name != "" then 1 else 0
    {
      var viewing := round.activeDay + 1 == |round.days|;
      match input {
        case EditRole(index, role) =>
          if viewing { ChangeRole(index, role); }
        case RemovePlayer(index) =>
          if viewing { ErasePlayer(index); }
        case AddPlayer(name) =>
          if viewing && name != "" { AppendPlayer(name); }
        case _ =>
      }
      ResetIdleActions();
    }

    /** A frame after the viewed day is clamped: the player-list step and the
        turn-list pass, then the input that acts on the turn, the days or the
        game. */
    method HandleInput(input: Input)
      requires Valid() && 0 <= round.activeDay < |round.days|
      modifies this, round, round.enabledRoles
      ensures Valid()
      ensures FrameEffect(input, Order(), old(round.days), old(round.activeDay), old(round.activeRole),
                          old(Enabled()), old(playerIdCounter),
                          round.days, round.activeDay, round.activeRole, Enabled(), playerIdCounter)
    {
      var viewing := round.activeDay + 1 == |round.days|;
      ghost var passed := FrameDays(round.days, round.activeDay, input, Enabled(), playerIdCounter);
      EditAndResetDay(input);
      assert round.days == passed;
      match input {
        case ToggleRole(turn) => ToggleTurnRole(turn);
        case SelectTurn(turn) =>
          assert passed[round.activeDay].players == old(round.days)[round.activeDay].players;
          ChooseTurn(turn);
        case NextTurnPressed =>
          assert passed[round.activeDay].players == old(round.days)[round.activeDay].players;
          if viewing { NextTurnButton(); }
        case Navigate(button) => SwitchDay(button);
        case ConfirmNewGame => StartNewGame();
        case _ =>
      }
    }

    /** One frame of `Game::Tick` with the user's `input`: clamps the viewed
        day, counts the viewed day's factions, applies the input in the order
        the frame handles it, and runs the turn-list pass. */
    method Tick(input: Input) returns (summary: map<Faction, nat>)
      requires Valid()
      modifies this, round, round.enabledRoles
      ensures Valid()
      ensures !input.ConfirmNewGame? ==> 0 <= round.activeDay < |round.days|
      ensures var viewed := old(round.days)[Clamp(old(round.activeDay), 0, |old(round.days)| - 1)].players;
              && (forall f :: f in summary <==> FactionCount(viewed, f) > 0)
              && (forall f :: f in summary ==> summary[f] == FactionCount(viewed, f))
              && Total(summary) == |viewed|
      ensures input.ConfirmNewGame? ==> |round.days| == 1
      ensures !input.ConfirmNewGame? ==>
                var viewed := Clamp(old(round.activeDay), 0, |old(round.days)| - 1);
                && |old(round.days)| <= |round.days|
                && forall d :: 0 <= d < |old(round.days)| && d != viewed ==> round.days[d] == old(round.days)[d]
      ensures FrameEffect(input, Order(), old(round.days), Clamp(old(round.activeDay), 0, |old(round.days)| - 1),
                          old(round.activeRole), old(Enabled()), old(playerIdCounter),
                          round.days, round.activeDay, round.activeRole, Enabled(), playerIdCounter)
    {
      round.activeDay := Clamp(round.activeDay, 0, |round.days| - 1);
      summary := FactionSummary(round.days[round.activeDay].players);
      HandleInput(input);
    }
  }
}
