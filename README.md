# Mafia game-master tool: turn and day bookkeeping

This project models the state kept by the Mafia game-master tool (`src/game.cpp`).
A game is a list of days. Each day holds its players and the action each role took.
Along with the days the game keeps the viewed day, the active turn, the roles switched
on for the game, and the counter that hands out player ids. The turn is a position in
the turn order, which is a permutation of the eight roles.

The model proves three things about this state:

- Advancing the turn finds the next turn a player can take.
- When the night ends, exactly one copy of the last day is appended.
- Every edit a frame of the interface makes keeps the state consistent.

Modules:

- `Roles` (`roles.dfy`): roles, factions, the role-to-faction mapping, turn orders and the default order.
- `Days` (`days.dfy`): players, days, `HavePlayersWithRole`, and the search `FirstMatchFrom`, which specifies where `NextTurn` stops.
- `Summary` (`summary.dfy`): the per-faction head count.
- `Navigation` (`navigation.dfy`): clamping the viewed day, and the day-navigation buttons.
- `MafiaGame` (`game.dfy`): the source's `Settings`, `Round` and `Game` as classes over `array`s and a `seq<Day>`.
  - `NextTurn` keeps the source's `while (true)` loop.
  - It stays mutually recursive with `SetFirstActiveRole`. The recursion terminates under an explicit measure: a call that can wrap around to a new day measures 2, `SetFirstActiveRole` measures 1, and a call that cannot wrap measures 0.
  - `Tick` takes what the user did in one frame as an `Input` value. It clamps the viewed day, counts the factions, applies the player-list edit, and runs the turn-list pass. Then it applies the role toggle or turn choice, the "next" press, the navigation, or the new game.
  - In the source, the check box and the radio button act inside the turn-list pass, row by row (`src/game.cpp:473`, `src/game.cpp:480`). The model runs them after the pass. The outcome is the same: each row reads its switched-on flag and "has players" before its check box can flip it (`src/game.cpp:448` before `src/game.cpp:473`), and each role sits in exactly one row of the order, so no later row reads the flipped flag.
  - `FrameEffect` states the whole effect of one frame on the state, input by input.

The object invariant `Game.Valid()` says:

- the turn order is a permutation;
- there is at least one day;
- the turn is in range;
- every day has one action per role;
- the players of a day carry distinct ids, all positive and below the id counter.

## Model

| member | source | states |
|---|---|---|
| Roles.RoleToFaction | src/game.cpp:41-54 | Total. The peaceful faction is exactly captain, sheriff, prostitute and the townsperson. The mafia faction is exactly the boss and the mafia. Yakuza and killer are each a faction of their own. |
| Roles.RoleAt | src/game.cpp:178 | The cast `Role(i)` is inverse to the enumeration value on 0..7. |
| Roles.DefaultOrderIsPermutation | src/game.cpp:175-179 | The default order (position i holds `Role(i)`) has no repeated role and contains every role. |
| Days.HavePlayersWithRole | src/game.cpp:160-163 | True exactly when some player of the day holds the role. |
| Days.FirstMatchFrom | src/game.cpp:218-233 | Returns the least position at or after `from` whose role some player holds. If no such position exists before the end of the order, it returns `None`. |
| Days.FirstMatchIsUnique | src/game.cpp:218-233 | A position with a match and no match before it is the one the search returns. |
| Days.FirstMatchFromStartExists | src/game.cpp:209-216 | For a day with players and a permutation as order, the search from position 0 always succeeds. This is why `SetFirstActiveRole` never wraps. |
| Days.RemoveAt | src/game.cpp:392-393 | Erasing position `index` keeps the players before it and shifts those after it down by one. |
| Days.RemoveAtKeepsWellFormed | src/game.cpp:392-393 | Erasing a player keeps the day's ids distinct and below the counter. |
| Days.AppendKeepsWellFormed | src/game.cpp:417 | Appending a player under the counter's id and then raising the counter keeps a day well formed. |
| Days.StopIndexAsWritten | src/game.cpp:218-233 | The index at which `NextTurn`'s loop reads `role_order`. It is one past the end exactly when the rest of the viewed day has no match and the copied last day is empty or has no match. |
| Days.NextTurnOnEmptyDayOverruns | src/game.cpp:223-230 | On a current day without players, the loop as written reads `role_order[Role::_count]`. |
| Days.NextTurnStaysInOrder | src/game.cpp:223-230 | When the copied day has players, the loop as written stops inside the order. |
| Summary.FactionCountsCoverPlayers | src/game.cpp:262-265 | The four faction counts of a player list sum to its length. |
| Summary.FactionSummary | src/game.cpp:262-265 | A faction has an entry exactly when some player belongs to it. Each entry is that faction's head count, and the entries sum to the number of players. |
| Navigation.Clamp | src/game.cpp:251 | The result lies in `[lo, hi]`. It is `x` when `x` is already in range, and otherwise the bound `x` passed. |
| Navigation.NavTarget | src/game.cpp:556-583 | "\|<" and "<" are disabled on day 0, and ">" and ">\|" on the last day. An enabled button always targets another existing day: "\|<" goes to day 0, ">\|" to the last day, "<" and ">" one day back or forward. |
| MafiaGame.TurnListed | src/game.cpp:445-461 | A turn is listed unless it is switched off on a day after day 0, or it is the townspeople's turn on day 0. |
| MafiaGame.TurnHasPlayers | src/game.cpp:448 | After day 0, a turn can be taken when some player of the day holds the role. On day 0 it can be taken when the role is switched on. |
| MafiaGame.ClearsAction | src/game.cpp:484 | The pass clears an action only while the current day is viewed, and only for a listed turn that nobody can take. |
| MafiaGame.EditPlayers | src/game.cpp:338-420 | A role edit, a removal or an addition changes the viewed day's players only while the current day is viewed. A removal needs a position of the list. An addition needs a non-empty name and uses the next id. |
| MafiaGame.ResetDay | src/game.cpp:438-487 | The action of each role the pass clears is emptied. Every other action and the players are kept. |
| MafiaGame.FrameDays | src/game.cpp:338-487 | The days after the player-list edit and the turn-list pass. Only the viewed day changes. |
| MafiaGame.FrameEffect | src/game.cpp:338-605 | The whole new state of one frame, input by input: the days, the viewed day, the turn, the switched-on roles and the id counter. |
| MafiaGame.Settings.SetDefault | src/game.cpp:175-179 | Position i of the order holds `Role(i)`, and the order is a permutation. |
| MafiaGame.Round.constructor | src/game.cpp:191-195 | No days, day 0, turn 0, and only the mafia and the townspeople switched on. |
| MafiaGame.Game.constructor | src/game.cpp:236-244 | The settings, the round and their arrays are new objects, shared with nothing. Default order, one day with players 1 (townsperson) and 2 (mafia), the id counter at 3, and the turn at the mafia's position, the first turn a player can take. |
| MafiaGame.Game.SetFirstActiveRole | src/game.cpp:209-216 | On a day with players, the turn becomes the first one they can take, and the days are unchanged. On an empty day nothing changes. |
| MafiaGame.Game.NextTurn | src/game.cpp:218-234 | If a later turn can be taken, it becomes the turn and the days and viewed day stay unchanged. Otherwise exactly one copy of the last day is appended, earlier days are unchanged, the copy is viewed, and the turn is its first takeable one. In both cases the result is in range and some player of the viewed day holds it. It requires a later match or a non-empty last day. |
| MafiaGame.Game.ChangeRole | src/game.cpp:338-343 | The player at `index` on the viewed day takes the new role. Nothing else changes. |
| MafiaGame.Game.ErasePlayer | src/game.cpp:392-393 | The player at `index` is erased from the viewed day if `index` is in range. Otherwise nothing changes. The invariant, including distinct ids, is kept. |
| MafiaGame.Game.AppendPlayer | src/game.cpp:414-420 | A townsperson is appended to the viewed day under the counter's id, and the counter goes up by one. The new id is held by no player of any day. |
| MafiaGame.Game.ResetIdleActions | src/game.cpp:438-487 | On the current day, the action of each listed turn that nobody can take is cleared. Other actions, the players and the other days are unchanged. The resulting days are `ResetDay` applied to the viewed day. |
| MafiaGame.Game.EditAndResetDay | src/game.cpp:338-487 | The player-list edit, then the turn-list pass. The result is `FrameDays`: the edit acts only while the current day is viewed, a removal only at a position of the list, and an addition only under a non-empty name. The id counter goes up exactly when a player is added. The viewed day and the turn are unchanged. |
| MafiaGame.Game.ToggleTurnRole | src/game.cpp:469-477 | On day 0 the check box of a listed row flips that row's role. Otherwise nothing changes. |
| MafiaGame.Game.ChooseTurn | src/game.cpp:479-481 | The radio button makes the row the turn only when the row is listed and the turn can be taken. |
| MafiaGame.Game.NextTurnButton | src/game.cpp:549-551 | On a current day with players, it has `NextTurn`'s effect. On an empty current day, the press changes nothing: the days, the viewed day and the turn are kept. |
| MafiaGame.Game.SwitchDay | src/game.cpp:556-590 | Views the day `NavTarget` picks. When leaving the current day, the turn becomes the first one the newly viewed day can take. Days are unchanged. |
| MafiaGame.Game.StartNewGame | src/game.cpp:596-605 | Leaves a single day with the old last day's players in order and no actions. The switched-on roles, the viewed day index and the turn are kept. |
| MafiaGame.Game.HandleInput | src/game.cpp:338-605 | Keeps the invariant, and the state after the frame is the one `FrameEffect` gives for the input. |
| MafiaGame.Game.Tick | src/game.cpp:246-606 | Keeps the invariant. The summary is the head count of the clamped viewed day at the start of the frame. Except on a new game, no day is removed and only the viewed day can change among the existing ones. A new game leaves one day. The whole new state is `FrameEffect` of the input from the clamped viewed day. Every input goes through the player-list edit and the turn-list pass. A check box flips its row's role only when the row is listed on day 0. A radio button picks its row only when the row is listed and its turn can be taken. "Next" on the current day with players moves to the next takeable turn, or appends one copy of the current day and starts its first takeable turn. A navigation button views the day `NavTarget` picks, and when it leaves the current day, the turn becomes that day's first takeable one. A new game keeps the switched-on roles, the viewed day index and the turn. Nothing else changes. |

## Left out

- User-interface calls (windows, tables, pop-ups, buttons, text rendering), the localised `Strings` table, the summary text and the float button widths. The state changes they trigger are method inputs: the `Input` datatype and the parameters of the `Game` methods.
- Several interactions in one frame. `Tick` takes one user action per frame, as a click gives.
- The modal text buffer and the role picker's scratch field. The name and the chosen role are parameters.
- `src/main.cpp` (window and event-loop lifecycle, redraw counting) and `src/game.h` (one factory declaration).
- Touch-gesture handling of the application. Its code is not part of this model.
- MafiaGame.Game.NextTurnButton: it ignores a press on an empty current day. The source has undefined behaviour there (see Findings).
- Integer widths: `int` and `size_t` are unbounded. The source's "no removal" marker (the largest `size_t`) becomes any index past the end.

## Findings

| source | as written | input that shows it | evidently intended | confidence | as-written member | corrected member |
|---|---|---|---|---|---|---|
| src/game.cpp:549-551 | The "next" button is enabled on the current day even when that day has no players. `NextTurn` then runs off the order: `SetFirstActiveRole` skips the empty copied day, and `role_order[Role::_count]` is read out of range. | Remove both players on day 0, then press "next". | The press does nothing, or the button is disabled, while the current day has no players. | medium, not executed | Days.StopIndexAsWritten | MafiaGame.Game.NextTurnButton |
