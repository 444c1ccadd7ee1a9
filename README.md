# Lobby and session state machine of a two-player matchmaking server

This project models the in-memory bookkeeping of a small UDP game server
(`main.py`). Players create lobbies, find and join them by a four-character
code, chat, toggle ready, and start a game. After a two-step countdown, the
game gets a session that holds the players' spawn positions and one enemy.

The model keeps the program's structure:

- `Common`: player ids, and the order-preserving removal that deleting a key
  from an insertion-ordered dict performs.
- `Text`: the username check, ASCII upper-casing of lobby codes, and the
  truncate-then-strip normalisation of chat text.
- `Players`: the player directory (`PlayerManager`), a class over a
  `map<Pid, PlayerData>`.
- `Lobby`: `LobbyState`, the lobby value `GameLobby` and the
  `LobbyManager` class, which owns the code→lobby and player→code tables.
  `TablesValid` is the table invariant: every lobby is stored under its own
  code, has members, repeats no member and has its host among them, and a
  player is indexed under a code exactly when it is a member of that lobby.
- `Session`: the `GameSession` class and the field-wise `Merge` that
  `update_player` performs.
- `Server`: the `GameServer` class and the `MessageRouter` handlers. Every
  datagram sent is appended to `GameServer.outbox` as a (recipient, payload)
  record. `GameServer.Valid` adds to the table invariant that every indexed
  player has a directory entry, and that each entry records its own
  player's address.
- `Scenarios`: two short conversations with the lobby tables.

A lobby's `players` dict holds the same record objects as the directory.
The model therefore keeps a lobby's members as a sequence of player ids in
join order, and reads the records from the directory.

Behaviour of `main.py` that a reader might not expect, which the model
keeps:

- `join_lobby` checks no capacity. A third player joins a lobby that
  `find_lobby` reports as unavailable (`Scenarios.ThirdPlayerJoins`). No
  "lobby full" error exists.
- `start_game` checks only that the sender is the host and that every
  member is ready. A lone host can start, and so can a lobby already in
  countdown or in game.
- The countdown broadcasts 2 and then 1. It never shows 0, and the game
  starts after the value 1.
- Leaving a lobby does not change its state, so a countdown is not
  cancelled by a member leaving.
- A join by a player who is already in a lobby is answered with
  "Invalid or duplicate username".

## Model

| member | source | states |
|---|---|---|
| Common.Without | main.py:58-59 | Deleting a key keeps every other key and drops only that one. Distinct keys stay distinct, and one present key shortens the sequence by exactly one. |
| Common.WithoutAt | main.py:58-59 | Deleting a key that sits at position k leaves exactly the keys before it and the keys after it, each group in its old order. |
| Common.WithoutHeadIsEarliest | main.py:63-64 | The first key left after a deletion is the earliest key in the old order that differs from the deleted one. |
| Text.ValidUsername | main.py:394-395 | A name is accepted exactly when it has 3 to 16 characters and every character is a letter or digit. |
| Text.Upper | main.py:161 | Upper-casing keeps the length and maps each character by itself. |
| Text.UpperIdempotent | main.py:161 | Upper-casing an upper-cased code changes nothing. |
| Text.UpperKeepsLobbyCodes | main.py:17 | A generated code (four upper-case hex digits) is unchanged by the handlers' upper-casing. |
| Text.UpperFindsTypedCode | main.py:161 | Whatever mix of upper and lower case a client types a generated code in, upper-casing it gives back the code. |
| Text.LeadingSpace | main.py:199 | The counted prefix is all whitespace, and the next character is not. |
| Text.TrailingSpace | main.py:199 | The counted suffix is all whitespace, and the character before it is not. |
| Text.Strip | main.py:199 | `strip()` returns a contiguous slice bounded by whitespace only. The slice is empty exactly when the text is all whitespace, and otherwise neither end is whitespace. |
| Text.StripIdempotent | main.py:199 | Stripping twice is stripping once. |
| Text.ChatText | main.py:199-201 | The stored text has at most 100 characters. It is empty, and the message ignored, exactly when the first 100 characters are all whitespace. |
| Players.PlayerManager.constructor | main.py:69-70 | The directory starts empty. |
| Players.NewPlayer | main.py:72-73 | A new record carries the address and name given, is not ready and has no character. |
| Players.Toggled | main.py:79-83 | Toggling keeps the directory's keys and every other player's record. It flips only the ready flag of the toggled player, and an unknown player changes nothing. |
| Players.ToggledTwice | main.py:79-83 | Two toggles of one player restore the directory. |
| Players.ToggledCommute | main.py:79-83 | Toggles of two players commute. |
| Players.WithCharacter | main.py:85-87 | Selecting a character keeps the keys and all other records. It changes only that player's character, and an unknown player changes nothing. |
| Players.PlayerManager.AddPlayer | main.py:72-73 | Registration stores a fresh record that is not ready and has no character, replacing any earlier one. |
| Players.PlayerManager.RemovePlayer | main.py:75-77 | The player's entry is removed, and an unknown player changes nothing. |
| Players.PlayerManager.ToggleReady | main.py:79-83 | The directory becomes `Toggled` of the old one. The result is the new flag, or false for an unknown player. |
| Players.PlayerManager.SetCharacter | main.py:85-87 | The directory becomes `WithCharacter` of the old one. |
| Lobby.NewLobby | main.py:15-22 | A new lobby has the given code and host, no members, an empty chat, state Waiting and countdown 2. |
| Lobby.Leave | main.py:52-66 | The leaving player is removed from the members in order, and the member count drops by one. A remaining lobby is still well formed, and its host is kept unless the host left. |
| Lobby.LeaveHandsToEarliest | main.py:63-64 | A departing host is replaced by the remaining member who joined earliest. |
| Lobby.CreateKeepsTablesValid | main.py:31-36 | Creating under an unused code, for a player in no lobby, keeps the table invariant. |
| Lobby.CreateOverCodeInUseBreaksTables | main.py:31-36 | For any valid tables, creating over a code already in use breaks the table invariant: the replaced lobby's members stay indexed under a lobby they are not in. |
| Lobby.JoinKeepsTablesValid | main.py:44-50 | A player in no lobby joining an existing lobby keeps the table invariant. |
| Lobby.LeaveKeepsTablesValid | main.py:52-66 | Leaving keeps the table invariant. A lobby is deleted exactly when it empties. |
| Lobby.RetouchKeepsTablesValid | main.py:203 | Changing a lobby's chat log, state or countdown keeps the table invariant. |
| Lobby.LobbyManager.constructor | main.py:27-29 | Both tables start empty, and the invariant holds. |
| Lobby.LobbyManager.CreateLobby | main.py:31-36 | The new lobby is stored under the code: Waiting, countdown 2, empty chat, the creator as host and sole member. The creator is indexed under the code, and every other lobby is untouched. The invariant is kept when the code is unused and the creator is in no lobby. |
| Lobby.LobbyManager.FindLobby | main.py:38-42 | Nothing is found exactly when the code is unknown or the lobby has 2 or more members; otherwise the result is that lobby. It reads the tables only. |
| Lobby.LobbyManager.JoinLobby | main.py:44-50 | An unknown code changes nothing and returns nothing. Otherwise the player is appended to the members if absent and indexed under the code; nothing else changes, and the invariant is kept. |
| Lobby.LobbyManager.ExitLobby | main.py:52-66 | An unindexed player changes nothing. Otherwise the player leaves (`Leave`) and is unindexed. An emptied lobby is deleted and nothing is returned; otherwise the updated lobby is stored and returned. The invariant is kept. |
| Session.AtRest | main.py:99-104 | A spawned body is at its spawn point, with zero velocity, idle, facing right. |
| Session.Merge | main.py:113-121 | Each of the four fields is the input's when present, else the stored one. |
| Session.MergeNothing | main.py:113-121 | An input with no fields changes nothing. |
| Session.MergeIdempotent | main.py:113-121 | Applying the same input twice equals applying it once. |
| Session.MergeOverlay | main.py:113-121 | Two updates in a row equal one update by their overlay. |
| Session.MergeFullInput | main.py:113-121 | An input with all four fields fixes the result, whatever was stored. |
| Session.GameSession.constructor | main.py:91-111 | The players are exactly the members, the i-th at `SPAWN_POS[i]` at rest. There are exactly `ENEMY_COUNT` enemies, the i-th a Skeleton at `ENEMY_SPAWN_POS[i]`. |
| Session.GameSession.UpdatePlayer | main.py:113-121 | The player's entry becomes the merge, an unknown player changes nothing, and the enemies are untouched. |
| Server.Broadcast | main.py:381-383 | One record per member, each carrying the same payload. |
| Server.BroadcastReachesMembers | main.py:381-383 | With a consistent directory, the recipients are exactly the members, once each, in join order. |
| Server.UpdateViews | main.py:361-364 | One entry per member in join order, with that member's name, ready flag and optional character. |
| Server.JoinedViews | main.py:373-376 | One entry per member in join order, with a missing character written as "". |
| Server.ViewsAgree | main.py:361-376 | The two snapshots differ only in how a missing character is written. |
| Server.ChatWindow | main.py:377 | The window is a suffix of the log, of length min(10, log length). |
| Server.ChatWindowAppend | main.py:377 | The window after an append is the window of (old window + entry), and it ends with the new entry. |
| Server.AllReady | main.py:222 | True exactly when every member's record is ready. |
| Server.TickSends | main.py:320-325 | The updates sent before the countdown reaches i number (2 - i) per member, and each is a `lobby_update` showing a value above i and at most 2. |
| Server.TickSendsFromStart | main.py:320-325 | The whole countdown sends the update showing 2 to every member, then the update showing 1 to every member. |
| Server.GameServer.constructor | main.py:295-303 | Empty tables, directory, sessions and outbox; the invariant holds. |
| Server.GameServer.SendLobbyData | main.py:368-379 | Appends exactly one `lobby_joined` record for the player: host flag, member views and the last 10 chat entries. It sends nothing for a player with no directory entry (KeyError). |
| Server.GameServer.BroadcastLobbyUpdate | main.py:357-366 | Appends one `lobby_update`, with the countdown and the member views, for each member. |
| Server.GameServer.CountdownStep | main.py:321-325 | A lobby not counting down stops the loop with no change. Otherwise its countdown becomes i, everyone gets the update, and the invariant is kept. |
| Server.GameServer.InitGame | main.py:332-335 | The lobby goes in game. With at most two members, a fresh session is registered under the code, its players spawned from the members and its enemies exactly the Skeletons named by the drawn ids; every other session is kept. With more members, no session is registered. |
| Server.GameServer.GameStartStep | main.py:327-330 | Every current member is sent `game`, then `InitGame` runs: the lobby goes in game and the spawned session, with its players and enemies, is registered. A deleted lobby has nobody to tell. |
| Server.GameServer.RunCountdown | main.py:320-326 | Starting from a lobby in countdown, it ends at countdown 1 after broadcasting 2 and then 1. A lobby in any other state stops it at once with no effect. |
| Server.GameServer.CountdownAndStart | main.py:319-330 | A counting-down lobby ends in game with countdown 1. The outbox gets the two ticks and then `game` for each member, and a session with the members' players and the drawn enemies is registered when there are at most two members. A lobby in another state sees no change. |
| Server.GameServer.MembersListed | main.py:174-176 | Under the server invariant every member of every stored lobby has a directory entry, so the snapshots' record lookups succeed. |
| Server.MessageRouter.constructor | main.py:128-129 | The router works on the server it is given. |
| Server.MessageRouter.HandleCreateLobby | main.py:148-158 | An indexed sender or bad name gets only the error. Otherwise: a registered creator, a new lobby with the creator as host and only member, and one `lobby_joined` to the creator with host true and an empty chat. The invariant is kept. |
| Server.MessageRouter.HandleFindLobby | main.py:160-166 | The reply says whether `FindLobby` of the upper-cased code finds a lobby; no table changes. |
| Server.MessageRouter.HandleJoinLobby | main.py:168-183 | Rejected like create. Otherwise the player is registered first, so an unknown code leaves a directory entry and "Lobby not found". A join appends the player and indexes it, broadcasts the new snapshot to all members, then sends `lobby_joined` to the joiner. The invariant is kept. |
| Server.MessageRouter.HandleExitLobby | main.py:185-191 | The player leaves its lobby and the directory. If the lobby survives, only its remaining members get the update, and no `lobby_joined` is sent. The invariant is kept. |
| Server.MessageRouter.HandleChatMessage | main.py:193-204 | From a player in no lobby, or with empty normalised text, nothing changes. Otherwise exactly one entry is appended to that lobby's log and sent to every member. |
| Server.MessageRouter.HandleToggleReady | main.py:206-214 | For a player in a lobby, the directory becomes `Toggled` and every member gets the new snapshot; otherwise nothing changes. |
| Server.MessageRouter.HandleStartGame | main.py:216-224 | The lobby enters countdown exactly when the sender hosts it and `AllReady` holds; otherwise no table changes. |
| Server.MessageRouter.HandlePlayerInput | main.py:226-231 | If the sender's lobby has a session, the sender's entry there becomes the merge of the input and its enemies are kept. It may change that one session only, so with no session nothing changes. |
| Server.MessageRouter.HandleCharacterSelect | main.py:278-287 | The sender's character is set, to "warrior" by default, even outside a lobby. If the sender is in a lobby, every member gets `character_changed`. |
| Server.MessageRouter.UnknownCommand | main.py:289-290 | Exactly one "Unknown command" error goes to the sender. |
| Scenarios.ThirdPlayerJoins | main.py:38-50 | After two joins, `find_lobby` reports the lobby unavailable (`offered` is false), yet a third player's join succeeds and the lobby has three members. |
| Scenarios.HostLeaves | main.py:52-66 | When the creator leaves a two-player lobby, the other player becomes host and sole member. |

## Left out

- Sockets, `send_json`, `send_error`, `receive_loop`, `stop` and the `__main__` block are not modelled. Each send is an `Outbound` record appended to `GameServer.outbox`; transport failures are not modelled.
- JSON decoding and the handler table in `route` are not modelled. Each handler is a method whose parameters are the message's fields. An absent `username`, `lobby_id` or `text` is passed as "". An absent `character` is `None`. The input fields of `player_input` are `Option`s. Payload values of the wrong JSON type (a number for a name, say) are not modelled.
- Threads, the lock and `time.sleep` are not modelled. Each handler, each `CountdownStep` and the final `GameStartStep` is one atomic step under the lock. `CountdownAndStart` is the countdown thread run with no handler in between; an interleaving is modelled by calling handlers between `CountdownStep`s and before `GameStartStep`.
- `game_loop`, `handle_player_ready`, `handle_enemy_status` and the `print` logging are not modelled: sending loops, a handler that dereferences a possibly missing session, and one that indexes dict keys as dicts.
- Lobby codes and enemy ids are drawn from `uuid`; here they are parameters. The timestamp from `time.time()` is a parameter too.
- Server.MessageRouter.HandleCreateLobby: requires the drawn code to be four upper-case hex digits and unused. The source does not check for a collision. `Lobby.LobbyManager.CreateLobby` models the overwrite, and `Lobby.CreateOverCodeInUseBreaksTables` shows what it breaks.
- A lobby is a value in the manager's table, not a shared object. The countdown thread holds the lobby object itself, while the model looks the lobby up by code at each step. The model treats a code no longer in the table as a lobby that was deleted, has no members, and is still counting down. If a new lobby reused the code within the two seconds, the model would count down the new one.
- Server.GameServer.CountdownStep: assumes a deleted lobby is still in countdown, so the loop goes on. An earlier countdown thread could have moved it into the game first; that is not modelled.
- The write-back `lobby.players[pid]['ready'] = ready` in `handle_toggle_ready` is not modelled separately. The lobby shares the directory's record, so the toggle already made that change.
- `str.isalnum` and `str.upper` are modelled for ASCII only. `str.isspace` follows Python's full set of whitespace characters.
- Positions and velocities are reals; the source mixes int and float lists.
- `GameSession` keeps its lobby's code instead of a reference to the lobby, and the order of its players dict is not kept (only `game_loop` iterates it).
