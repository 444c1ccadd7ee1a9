/** `GameServer` and `MessageRouter`: the request handlers on top of the
    lobby tables and the player directory, the snapshots they send, and the
    countdown that starts a game. Every datagram sent is appended to
    `GameServer.outbox`. */
module Server {
  import opened Common
  import opened Text
  import opened Players
  import opened Lobby
  import opened Session

  /** A player as `lobby_update` lists it: no character is `null`. */
  datatype PlayerView = PlayerView(username: string, ready: bool, character: Option<string>)

  /** A player as `lobby_joined` lists it: no character is `""`. */
  datatype JoinedView = JoinedView(username: string, ready: bool, character: string)

  /** The payloads the modelled handlers send. */
  datatype Message =
    | Error(message: string)
    | FindStatus(found: bool)
    | LobbyJoined(lobbyId: string, isHost: bool, roster: seq<JoinedView>, chatHistory: seq<ChatEntry>)
    | LobbyUpdate(countdown: int, players: seq<PlayerView>)
    | ChatMessage(entry: ChatEntry)
    | CharacterChanged(id: Pid, character: string)
    | Game

  datatype Outbound = Outbound(to: Addr, message: Message)

  const DUPLICATE_ERROR := "Invalid or duplicate username"
  const NOT_FOUND_ERROR := "Lobby not found"
  const UNKNOWN_ERROR := "Unknown command"
  /** The character `character_select` uses when the message names none. */
  const DEFAULT_CHARACTER := "warrior"
  /** How many chat entries the join snapshot carries. */
  const CHAT_WINDOW := 10

  /** Every member has a directory entry. */
  predicate Listed(players: map<Pid, PlayerData>, members: seq<Pid>) {
    forall m | m in members :: m in players
  }

  /** The directory and the index agree: every indexed player is
      registered, and every record carries its own player's address. */
  predicate Registered(index: map<Pid, string>, players: map<Pid, PlayerData>) {
    && (forall pid | pid in index :: pid in players)
    && (forall pid | pid in players :: players[pid].addr == pid)
  }

  /** The same message to every member, in join order. */
  function Broadcast(players: map<Pid, PlayerData>, members: seq<Pid>, m: Message): (r: seq<Outbound>)
    requires Listed(players, members)
    ensures |r| == |members|
    ensures forall i | 0 <= i < |r| :: r[i].message == m
  {
    seq(|members|, i requires 0 <= i < |members| => Outbound(players[members[i]].addr, m))
  }

  function Recipients(outs: seq<Outbound>): (r: seq<Addr>)
    ensures |r| == |outs|
  {
    seq(|outs|, i requires 0 <= i < |outs| => outs[i].to)
  }

  /** With a registered directory, a broadcast goes to exactly the
      members, once each, in join order. */
  lemma BroadcastReachesMembers(players: map<Pid, PlayerData>, members: seq<Pid>, m: Message)
    requires Listed(players, members)
    requires forall pid | pid in players :: players[pid].addr == pid
    ensures Recipients(Broadcast(players, members, m)) == members
  {
  }

  /** The `players` list of `lobby_update`. */
  function UpdateViews(players: map<Pid, PlayerData>, members: seq<Pid>): (r: seq<PlayerView>)
    requires Listed(players, members)
    ensures |r| == |members|
    ensures forall i | 0 <= i < |r| ::
              r[i] == PlayerView(players[members[i]].username, players[members[i]].ready, players[members[i]].character)
  {
    seq(|members|, i requires 0 <= i < |members| =>
      PlayerView(players[members[i]].username, players[members[i]].ready, players[members[i]].character))
  }

  function CharacterOr(c: Option<string>, default: string): string {
    if c.Some? then c.value else default
  }

  /** The `players` list of `lobby_joined`. */
  function JoinedViews(players: map<Pid, PlayerData>, members: seq<Pid>): (r: seq<JoinedView>)
    requires Listed(players, members)
    ensures |r| == |members|
    ensures forall i | 0 <= i < |r| ::
              r[i] == JoinedView(players[members[i]].username, players[members[i]].ready,
                                 CharacterOr(players[members[i]].character, ""))
  {
    seq(|members|, i requires 0 <= i < |members| =>
      JoinedView(players[members[i]].username, players[members[i]].ready,
                 CharacterOr(players[members[i]].character, "")))
  }

  /** The two snapshots agree on everything but how a missing character is
      written. */
  lemma ViewsAgree(players: map<Pid, PlayerData>, members: seq<Pid>)
    requires Listed(players, members)
    ensures forall i | 0 <= i < |members| ::
              && JoinedViews(players, members)[i].username == UpdateViews(players, members)[i].username
              && JoinedViews(players, members)[i].ready == UpdateViews(players, members)[i].ready
              && JoinedViews(players, members)[i].character == CharacterOr(UpdateViews(players, members)[i].character, "")
  {
  }

  /** `chat_history[-10:]`: the last ten entries in their order, or all of
      them when there are fewer. */
  function ChatWindow(history: seq<ChatEntry>): (w: seq<ChatEntry>)
    ensures |w| == if |history| <= CHAT_WINDOW then |history| else CHAT_WINDOW
    ensures history == history[..|history| - |w|] + w
  {
    if |history| <= CHAT_WINDOW then history else history[|history| - CHAT_WINDOW..]
  }

  /** The window can be kept incrementally: the window after an append is
      the window of the old window plus the new entry, which is its last
      element. */
  lemma ChatWindowAppend(history: seq<ChatEntry>, e: ChatEntry)
    ensures ChatWindow(history + [e]) == ChatWindow(ChatWindow(history) + [e])
    ensures ChatWindow(history + [e])[|ChatWindow(history + [e])| - 1] == e
  {
    var h := history + [e];
    if |h| > CHAT_WINDOW {
      var w := ChatWindow(history);
      assert h[|h| - CHAT_WINDOW..] == (w + [e])[|w + [e]| - CHAT_WINDOW..];
    }
  }

  /** `all(p['ready'] for p in lobby.players.values())`. */
  function AllReady(players: map<Pid, PlayerData>, members: seq<Pid>): (ok: bool)
    requires Listed(players, members)
    ensures ok <==> forall i | 0 <= i < |members| :: players[members[i]].ready
  {
    if members == [] then true
    else
      var rest := AllReady(players, members[1..]);
      assert forall i | 1 <= i < |members| :: members[i] == members[1..][i - 1];
      players[members[0]].ready && rest
  }

  /** The `lobby_joined` snapshot sent to `pid`. */
  function JoinedMessage(players: map<Pid, PlayerData>, lobby: GameLobby, pid: Pid): Message
    requires Listed(players, lobby.members)
  {
    LobbyJoined(lobby.id, lobby.host == pid, JoinedViews(players, lobby.members), ChatWindow(lobby.chatHistory))
  }

  /** The `lobby_update` snapshot. */
  function UpdateMessage(players: map<Pid, PlayerData>, lobby: GameLobby): Message
    requires Listed(players, lobby.members)
  {
    LobbyUpdate(lobby.countdown, UpdateViews(players, lobby.members))
  }

  /** The updates the countdown broadcasts before it reaches `i`: one per
      value from `INITIAL_COUNTDOWN` down to `i + 1`. */
  function TickSends(players: map<Pid, PlayerData>, lobby: GameLobby, i: int): (r: seq<Outbound>)
    requires Listed(players, lobby.members) && 0 <= i <= INITIAL_COUNTDOWN
    ensures |r| == (INITIAL_COUNTDOWN - i) * |lobby.members|
    ensures forall k | 0 <= k < |r| :: r[k].message.LobbyUpdate? && i < r[k].message.countdown <= INITIAL_COUNTDOWN
    decreases INITIAL_COUNTDOWN - i
  {
    if i == INITIAL_COUNTDOWN then []
    else TickSends(players, lobby, i + 1) + Broadcast(players, lobby.members, UpdateMessage(players, lobby.(countdown := i + 1)))
  }

  /** The whole countdown sends two rounds of updates, the one showing 2
      to every member and then the one showing 1. */
  lemma TickSendsFromStart(players: map<Pid, PlayerData>, lobby: GameLobby)
    requires Listed(players, lobby.members)
    ensures TickSends(players, lobby, 0)
            == Broadcast(players, lobby.members, UpdateMessage(players, lobby.(countdown := 2)))
               + Broadcast(players, lobby.members, UpdateMessage(players, lobby.(countdown := 1)))
  {
    assert TickSends(players, lobby, 2) == [];
  }

  class GameServer {
    const lobbyManager: LobbyManager
    const playerManager: PlayerManager
    var gameSessions: map<string, GameSession>
    /** Every datagram sent, oldest first. */
    var outbox: seq<Outbound>

    ghost predicate Valid()
      reads this, lobbyManager, playerManager
    {
      lobbyManager.Valid() && Registered(lobbyManager.waitingPlayers, playerManager.players)
    }

    /** Every member of a stored lobby has a directory entry. */
    lemma MembersListed(code: string)
      requires Valid() && code in lobbyManager.lobbies
      ensures Listed(playerManager.players, lobbyManager.lobbies[code].members)
    {
    }

    constructor ()
      ensures Valid() && fresh(lobbyManager) && fresh(playerManager)
      ensures lobbyManager.lobbies == map[] && lobbyManager.waitingPlayers == map[]
      ensures playerManager.players == map[] && gameSessions == map[] && outbox == []
    {
      lobbyManager := new LobbyManager();
      playerManager := new PlayerManager();
      gameSessions := map[];
      outbox := [];
    }

    /** `send_lobby_data`: the `lobby_joined` snapshot to `pid`. Looking
        up the address of a `pid` with no directory entry raises
        `KeyError`, and nothing is sent. */
    method SendLobbyData(lobby: GameLobby, pid: Pid)
      requires Listed(playerManager.players, lobby.members)
      modifies this
      ensures pid in playerManager.players ==>
                outbox == old(outbox) + [Outbound(playerManager.players[pid].addr,
                                                  JoinedMessage(playerManager.players, lobby, pid))]
      ensures pid !in playerManager.players ==> outbox == old(outbox)
      ensures gameSessions == old(gameSessions)
    {
      var data := JoinedMessage(playerManager.players, lobby, pid);
      if pid in playerManager.players {
        outbox := outbox + [Outbound(playerManager.players[pid].addr, data)];
      }
    }

    /** `broadcast_lobby_update`: the `lobby_update` snapshot to every
        member. */
    method BroadcastLobbyUpdate(lobby: GameLobby)
      requires Listed(playerManager.players, lobby.members)
      modifies this
      ensures outbox == old(outbox) + Broadcast(playerManager.players, lobby.members, UpdateMessage(playerManager.players, lobby))
      ensures gameSessions == old(gameSessions)
    {
      outbox := outbox + Broadcast(playerManager.players, lobby.members, UpdateMessage(playerManager.players, lobby));
    }

    /** One pass of the countdown loop of `countdown_and_start`, taken
        under the lock: stop (`go` false) unless the lobby is still
        counting down, else set the countdown to `i` and broadcast. The
        thread holds the lobby object; a lobby deleted since (its last
        member left) is still counting down but has nobody to send to, so
        the pass changes nothing visible and the loop goes on. */
    method CountdownStep(code: string, i: int) returns (go: bool)
      requires Valid()
      modifies this, lobbyManager
      ensures Valid()
      ensures lobbyManager.waitingPlayers == old(lobbyManager.waitingPlayers) && gameSessions == old(gameSessions)
      ensures code !in old(lobbyManager.lobbies) ==>
                go && lobbyManager.lobbies == old(lobbyManager.lobbies) && outbox == old(outbox)
      ensures code in old(lobbyManager.lobbies) ==>
                var l := old(lobbyManager.lobbies[code]);
                && (l.state != Countdown ==>
                      !go && lobbyManager.lobbies == old(lobbyManager.lobbies) && outbox == old(outbox))
                && (l.state == Countdown ==>
                      && go
                      && Listed(playerManager.players, l.members)
                      && lobbyManager.lobbies == old(lobbyManager.lobbies)[code := l.(countdown := i)]
                      && outbox == old(outbox) + Broadcast(playerManager.players, l.members,
                                                           UpdateMessage(playerManager.players, l.(countdown := i))))
    {
      if code !in lobbyManager.lobbies {
        return true;
      }
      var lobby := lobbyManager.lobbies[code];
      if lobby.state != Countdown {
        return false;
      }
      MembersListed(code);
      RetouchKeepsTablesValid(lobbyManager.lobbies, lobbyManager.waitingPlayers, code, lobby.(countdown := i));
      lobby := lobby.(countdown := i);
      lobbyManager.lobbies := lobbyManager.lobbies[code := lobby];
      BroadcastLobbyUpdate(lobby);
      return true;
    }

    /** `init_game`: the lobby goes in game and a session built from its
        members is registered under its code. Building the session indexes
        the two spawn points by join order, so for a lobby of more than two
        members it raises `IndexError` after the state is set and no session
        is registered. A lobby deleted since the countdown began has no
        members left, and its session has no players. */
    method InitGame(code: string, enemyIds: seq<string>)
      requires Valid() && |enemyIds| == ENEMY_COUNT
      modifies this, lobbyManager
      ensures Valid()
      ensures lobbyManager.waitingPlayers == old(lobbyManager.waitingPlayers) && outbox == old(outbox)
      ensures code !in old(lobbyManager.lobbies) ==> lobbyManager.lobbies == old(lobbyManager.lobbies)
      ensures code in old(lobbyManager.lobbies) ==>
                lobbyManager.lobbies == old(lobbyManager.lobbies)[code := old(lobbyManager.lobbies[code]).(state := InGame)]
      ensures var members := if code in old(lobbyManager.lobbies) then old(lobbyManager.lobbies[code].members) else [];
              && (|members| > |SPAWN_POS| ==> gameSessions == old(gameSessions))
              && (|members| <= |SPAWN_POS| ==>
                    && code in gameSessions && gameSessions == old(gameSessions)[code := gameSessions[code]]
                    && fresh(gameSessions[code])
                    && gameSessions[code].lobbyId == code
                    && gameSessions[code].SpawnedFrom(members)
                    && gameSessions[code].EnemiesSpawned(enemyIds))
    {
      var members: seq<Pid> := [];
      if code in lobbyManager.lobbies {
        var lobby := lobbyManager.lobbies[code];
        RetouchKeepsTablesValid(lobbyManager.lobbies, lobbyManager.waitingPlayers, code, lobby.(state := InGame));
        lobbyManager.lobbies := lobbyManager.lobbies[code := lobby.(state := InGame)];
        members := lobby.members;
      }
      if |members| > |SPAWN_POS| {
        return;
      }
      var session := new GameSession(code, members, enemyIds);
      gameSessions := gameSessions[code := session];
    }

    /** The loop of `countdown_and_start`: one `CountdownStep` for each
        value from 2 down to 1 (the countdown never shows 0). It finishes
        unless a step finds the lobby no longer counting down. */
    method RunCountdown(code: string) returns (finished: bool)
      requires Valid()
      modifies this, lobbyManager
      ensures Valid()
      ensures lobbyManager.waitingPlayers == old(lobbyManager.waitingPlayers) && gameSessions == old(gameSessions)
      ensures code !in old(lobbyManager.lobbies) ==>
                finished && lobbyManager.lobbies == old(lobbyManager.lobbies) && outbox == old(outbox)
      ensures code in old(lobbyManager.lobbies) && old(lobbyManager.lobbies[code].state) != Countdown ==>
                !finished && lobbyManager.lobbies == old(lobbyManager.lobbies) && outbox == old(outbox)
      ensures code in old(lobbyManager.lobbies) && old(lobbyManager.lobbies[code].state) == Countdown ==>
                var l := old(lobbyManager.lobbies[code]);
                && finished
                && Listed(playerManager.players, l.members)
                && lobbyManager.lobbies == old(lobbyManager.lobbies)[code := l.(countdown := 1)]
                && outbox == old(outbox) + TickSends(playerManager.players, l, 0)
    {
      ghost var lobbies0 := lobbyManager.lobbies;
      ghost var out0 := outbox;
      ghost var started := code in lobbies0 && lobbies0[code].state == Countdown;
      ghost var l := if code in lobbies0 then lobbies0[code] else NewLobby(code, Addr("", 0));
      if code in lobbies0 {
        MembersListed(code);
      }
      var i := INITIAL_COUNTDOWN;
      while i > 0
        invariant 0 <= i <= INITIAL_COUNTDOWN
        invariant Valid()
        invariant lobbyManager.waitingPlayers == old(lobbyManager.waitingPlayers)
        invariant gameSessions == old(gameSessions)
        invariant !started ==> lobbyManager.lobbies == lobbies0 && outbox == out0
        invariant code in lobbies0 && !started ==> i == INITIAL_COUNTDOWN
        invariant started ==>
                    && Listed(playerManager.players, l.members)
                    && lobbyManager.lobbies == lobbies0[code := l.(countdown := if i == INITIAL_COUNTDOWN then l.countdown else i + 1)]
                    && outbox == out0 + TickSends(playerManager.players, l, i)
      {
        var go := CountdownStep(code, i);
        if !go {
          return false;
        }
        i := i - 1;
      }
      return true;
    }

    /** The last locked block of `countdown_and_start`: every current
        member is told the game starts, then `init_game` runs. A lobby
        deleted since the countdown began has nobody to tell. */
    method GameStartStep(code: string, enemyIds: seq<string>)
      requires Valid() && |enemyIds| == ENEMY_COUNT
      modifies this, lobbyManager
      ensures Valid()
      ensures lobbyManager.waitingPlayers == old(lobbyManager.waitingPlayers)
      ensures code !in old(lobbyManager.lobbies) ==> lobbyManager.lobbies == old(lobbyManager.lobbies)
      ensures code in old(lobbyManager.lobbies) ==>
                lobbyManager.lobbies == old(lobbyManager.lobbies)[code := old(lobbyManager.lobbies[code]).(state := InGame)]
      ensures var members := if code in old(lobbyManager.lobbies) then old(lobbyManager.lobbies[code].members) else [];
              && Listed(playerManager.players, members)
              && outbox == old(outbox) + Broadcast(playerManager.players, members, Game)
              && (|members| > |SPAWN_POS| ==> gameSessions == old(gameSessions))
              && (|members| <= |SPAWN_POS| ==>
                    && code in gameSessions && gameSessions == old(gameSessions)[code := gameSessions[code]]
                    && fresh(gameSessions[code])
                    && gameSessions[code].lobbyId == code
                    && gameSessions[code].SpawnedFrom(members)
                    && gameSessions[code].EnemiesSpawned(enemyIds))
    {
      var members: seq<Pid> := [];
      if code in lobbyManager.lobbies {
        members := lobbyManager.lobbies[code].members;
        MembersListed(code);
      }
      outbox := outbox + Broadcast(playerManager.players, members, Game);
      InitGame(code, enemyIds);
    }

    /** `countdown_and_start` run without interruption: the countdown
        (`RunCountdown`); then, if it finished, `GameStartStep`. A lobby
        not counting down stops it at once, with no effect. */
    method CountdownAndStart(code: string, enemyIds: seq<string>)
      requires Valid() && |enemyIds| == ENEMY_COUNT
      modifies this, lobbyManager
      ensures Valid()
      ensures lobbyManager.waitingPlayers == old(lobbyManager.waitingPlayers)
      ensures code in old(lobbyManager.lobbies) && old(lobbyManager.lobbies[code].state) != Countdown ==>
                && lobbyManager.lobbies == old(lobbyManager.lobbies)
                && outbox == old(outbox) && gameSessions == old(gameSessions)
      ensures code in old(lobbyManager.lobbies) && old(lobbyManager.lobbies[code].state) == Countdown ==>
                var l := old(lobbyManager.lobbies[code]);
                && Listed(playerManager.players, l.members)
                && lobbyManager.lobbies == old(lobbyManager.lobbies)[code := l.(countdown := 1, state := InGame)]
                && outbox == old(outbox) + TickSends(playerManager.players, l, 0)
                                         + Broadcast(playerManager.players, l.members, Game)
                && (|l.members| > |SPAWN_POS| ==> gameSessions == old(gameSessions))
                && (|l.members| <= |SPAWN_POS| ==>
                      && code in gameSessions && gameSessions == old(gameSessions)[code := gameSessions[code]]
                      && fresh(gameSessions[code])
                      && gameSessions[code].SpawnedFrom(l.members)
                      && gameSessions[code].EnemiesSpawned(enemyIds))
      ensures code !in old(lobbyManager.lobbies) ==>
                && lobbyManager.lobbies == old(lobbyManager.lobbies)
                && outbox == old(outbox)
                && code in gameSessions && gameSessions == old(gameSessions)[code := gameSessions[code]]
                && fresh(gameSessions[code])
                && gameSessions[code].SpawnedFrom([])
                && gameSessions[code].EnemiesSpawned(enemyIds)
    {
      var finished := RunCountdown(code);
      if !finished {
        return;
      }
      GameStartStep(code, enemyIds);
    }
  }

  class MessageRouter {
    const server: GameServer

    constructor (s: GameServer)
      ensures server == s
    {
      server := s;
    }

    /** `handle_create_lobby`. A player already in a lobby, or a name that
        fails `ValidUsername`, gets an error and nothing else changes.
        Otherwise the player is registered, a lobby is created under `code`
        (the drawn code, which must be unused: see `CreateLobby`) and the
        creator gets the `lobby_joined` snapshot. */
    method HandleCreateLobby(addr: Addr, username: string, code: string)
      requires server.Valid() && IsLobbyCode(code) && code !in server.lobbyManager.lobbies
      modifies server, server.lobbyManager, server.playerManager
      ensures server.Valid() && server.gameSessions == old(server.gameSessions)
      ensures addr in old(server.lobbyManager.waitingPlayers) || !ValidUsername(username) ==>
                && server.lobbyManager.lobbies == old(server.lobbyManager.lobbies)
                && server.lobbyManager.waitingPlayers == old(server.lobbyManager.waitingPlayers)
                && server.playerManager.players == old(server.playerManager.players)
                && server.outbox == old(server.outbox) + [Outbound(addr, Error(DUPLICATE_ERROR))]
      ensures addr !in old(server.lobbyManager.waitingPlayers) && ValidUsername(username) ==>
                && server.playerManager.players == old(server.playerManager.players)[addr := NewPlayer(addr, username)]
                && server.lobbyManager.lobbies == old(server.lobbyManager.lobbies)[code := GameLobby(code, addr, [addr], [], Waiting, INITIAL_COUNTDOWN)]
                && server.lobbyManager.waitingPlayers == old(server.lobbyManager.waitingPlayers)[addr := code]
                && server.outbox == old(server.outbox) + [Outbound(addr, LobbyJoined(code, true, [JoinedView(username, false, "")], []))]
    {
      var pid: Pid := addr;
      if pid in server.lobbyManager.waitingPlayers || !ValidUsername(username) {
        server.outbox := server.outbox + [Outbound(addr, Error(DUPLICATE_ERROR))];
        return;
      }
      server.playerManager.AddPlayer(pid, addr, username);
      var lobby := server.lobbyManager.CreateLobby(pid, code);
      assert JoinedViews(server.playerManager.players, lobby.members) == [JoinedView(username, false, "")];
      server.SendLobbyData(lobby, pid);
    }

    /** `handle_find_lobby`: tells the sender whether the upper-cased code
        names a lobby with room (`FindLobby`); nothing else changes. */
    method HandleFindLobby(addr: Addr, lobbyId: string)
      requires server.Valid()
      modifies server
      ensures server.Valid() && server.gameSessions == old(server.gameSessions)
      ensures server.outbox == old(server.outbox) + [Outbound(addr, FindStatus(server.lobbyManager.FindLobby(Upper(lobbyId)).Some?))]
    {
      var lobby := server.lobbyManager.FindLobby(Upper(lobbyId));
      server.outbox := server.outbox + [Outbound(addr, FindStatus(lobby.Some?))];
    }

    /** `handle_join_lobby`. Rejected like a create. Otherwise the player
        is registered before the code is looked up, so an unknown code
        leaves a directory entry behind and answers "Lobby not found".
        A join appends the player to the members (no capacity check) and
        sends the new snapshot to every member, then `lobby_joined` to the
        joiner. */
    method HandleJoinLobby(addr: Addr, username: string, lobbyId: string)
      requires server.Valid()
      modifies server, server.lobbyManager, server.playerManager
      ensures server.Valid() && server.gameSessions == old(server.gameSessions)
      ensures addr in old(server.lobbyManager.waitingPlayers) || !ValidUsername(username) ==>
                && server.lobbyManager.lobbies == old(server.lobbyManager.lobbies)
                && server.lobbyManager.waitingPlayers == old(server.lobbyManager.waitingPlayers)
                && server.playerManager.players == old(server.playerManager.players)
                && server.outbox == old(server.outbox) + [Outbound(addr, Error(DUPLICATE_ERROR))]
      ensures addr !in old(server.lobbyManager.waitingPlayers) && ValidUsername(username) ==>
                server.playerManager.players == old(server.playerManager.players)[addr := NewPlayer(addr, username)]
      ensures addr !in old(server.lobbyManager.waitingPlayers) && ValidUsername(username)
              && Upper(lobbyId) !in old(server.lobbyManager.lobbies) ==>
                && server.lobbyManager.lobbies == old(server.lobbyManager.lobbies)
                && server.lobbyManager.waitingPlayers == old(server.lobbyManager.waitingPlayers)
                && server.outbox == old(server.outbox) + [Outbound(addr, Error(NOT_FOUND_ERROR))]
      ensures addr !in old(server.lobbyManager.waitingPlayers) && ValidUsername(username)
              && Upper(lobbyId) in old(server.lobbyManager.lobbies) ==>
                var code := Upper(lobbyId);
                var l := old(server.lobbyManager.lobbies[code]).(members := old(server.lobbyManager.lobbies[code].members) + [addr]);
                && Listed(server.playerManager.players, l.members)
                && server.lobbyManager.lobbies == old(server.lobbyManager.lobbies)[code := l]
                && server.lobbyManager.waitingPlayers == old(server.lobbyManager.waitingPlayers)[addr := code]
                && server.outbox == old(server.outbox)
                                    + Broadcast(server.playerManager.players, l.members, UpdateMessage(server.playerManager.players, l))
                                    + [Outbound(addr, JoinedMessage(server.playerManager.players, l, addr))]
    {
      var pid: Pid := addr;
      var lid := Upper(lobbyId);
      if pid in server.lobbyManager.waitingPlayers || !ValidUsername(username) {
        server.outbox := server.outbox + [Outbound(addr, Error(DUPLICATE_ERROR))];
        return;
      }
      if lid in server.lobbyManager.lobbies {
        assert pid !in server.lobbyManager.lobbies[lid].members;
      }
      server.playerManager.AddPlayer(pid, addr, username);
      var lobby := server.lobbyManager.JoinLobby(pid, lid);
      if lobby.None? {
        server.outbox := server.outbox + [Outbound(addr, Error(NOT_FOUND_ERROR))];
        return;
      }
      server.MembersListed(lid);
      assert lobby.value == server.lobbyManager.lobbies[lid];
      server.BroadcastLobbyUpdate(lobby.value);
      server.SendLobbyData(lobby.value, pid);
    }

    /** `handle_exit_lobby`: the player leaves its lobby (`ExitLobby`) and
        the directory. If the lobby lives on, its remaining members get the
        new snapshot; the `lobby_joined` that follows looks up the departed
        player's address, raises `KeyError` and is never sent. */
    method HandleExitLobby(addr: Addr)
      requires server.Valid()
      modifies server, server.lobbyManager, server.playerManager
      ensures server.Valid() && server.gameSessions == old(server.gameSessions)
      ensures server.playerManager.players == old(server.playerManager.players) - {addr}
      ensures addr !in old(server.lobbyManager.waitingPlayers) ==>
                && server.lobbyManager.lobbies == old(server.lobbyManager.lobbies)
                && server.lobbyManager.waitingPlayers == old(server.lobbyManager.waitingPlayers)
                && server.outbox == old(server.outbox)
      ensures addr in old(server.lobbyManager.waitingPlayers) ==>
                var code := old(server.lobbyManager.waitingPlayers[addr]);
                var after := Leave(old(server.lobbyManager.lobbies[code]), addr);
                && server.lobbyManager.waitingPlayers == old(server.lobbyManager.waitingPlayers) - {addr}
                && (after.members == [] ==>
                      server.lobbyManager.lobbies == old(server.lobbyManager.lobbies) - {code}
                      && server.outbox == old(server.outbox))
                && (after.members != [] ==>
                      && Listed(server.playerManager.players, after.members)
                      && server.lobbyManager.lobbies == old(server.lobbyManager.lobbies)[code := after]
                      && server.outbox == old(server.outbox)
                                          + Broadcast(server.playerManager.players, after.members,
                                                      UpdateMessage(server.playerManager.players, after)))
    {
      var pid: Pid := addr;
      var lobby := server.lobbyManager.ExitLobby(pid);
      server.playerManager.RemovePlayer(pid);
      if lobby.Some? {
        server.MembersListed(lobby.value.id);
        server.BroadcastLobbyUpdate(lobby.value);
        server.SendLobbyData(lobby.value, pid);
      }
    }

    /** `handle_chat_message`: from a player in a lobby, with text that is
        not empty once cut to 100 characters and stripped (`ChatText`),
        exactly one entry is appended to that lobby's log and sent to every
        member; anything else is ignored. */
    method HandleChatMessage(addr: Addr, raw: string, timestamp: real)
      requires server.Valid()
      modifies server, server.lobbyManager
      ensures server.Valid() && server.gameSessions == old(server.gameSessions)
      ensures server.lobbyManager.waitingPlayers == old(server.lobbyManager.waitingPlayers)
      ensures addr !in old(server.lobbyManager.waitingPlayers) || ChatText(raw) == [] ==>
                server.lobbyManager.lobbies == old(server.lobbyManager.lobbies) && server.outbox == old(server.outbox)
      ensures addr in old(server.lobbyManager.waitingPlayers) && ChatText(raw) != [] ==>
                var code := old(server.lobbyManager.waitingPlayers[addr]);
                var l := old(server.lobbyManager.lobbies[code]);
                var entry := ChatEntry(server.playerManager.players[addr].username, ChatText(raw), timestamp);
                && Listed(server.playerManager.players, l.members)
                && server.lobbyManager.lobbies == old(server.lobbyManager.lobbies)[code := l.(chatHistory := l.chatHistory + [entry])]
                && server.outbox == old(server.outbox) + Broadcast(server.playerManager.players, l.members, ChatMessage(entry))
    {
      var pid: Pid := addr;
      if pid !in server.lobbyManager.waitingPlayers {
        return;
      }
      var lid := server.lobbyManager.waitingPlayers[pid];
      var lobby := server.lobbyManager.lobbies[lid];
      var text := ChatText(raw);
      if text == [] {
        return;
      }
      var chat := ChatEntry(server.playerManager.players[pid].username, text, timestamp);
      lobby := lobby.(chatHistory := lobby.chatHistory + [chat]);
      RetouchKeepsTablesValid(server.lobbyManager.lobbies, server.lobbyManager.waitingPlayers, lid, lobby);
      server.lobbyManager.lobbies := server.lobbyManager.lobbies[lid := lobby];
      server.MembersListed(lid);
      server.outbox := server.outbox + Broadcast(server.playerManager.players, lobby.members, ChatMessage(chat));
    }

    /** `handle_toggle_ready`: for a player in a lobby, flips its ready
        flag (`Toggled`; the lobby shares the record, so the write-back
        changes nothing more) and sends the new snapshot to every member. */
    method HandleToggleReady(addr: Addr)
      requires server.Valid()
      modifies server, server.playerManager
      ensures server.Valid() && server.gameSessions == old(server.gameSessions)
      ensures addr !in server.lobbyManager.waitingPlayers ==>
                server.playerManager.players == old(server.playerManager.players) && server.outbox == old(server.outbox)
      ensures addr in server.lobbyManager.waitingPlayers ==>
                var l := server.lobbyManager.lobbies[server.lobbyManager.waitingPlayers[addr]];
                && server.playerManager.players == Toggled(old(server.playerManager.players), addr)
                && Listed(server.playerManager.players, l.members)
                && server.outbox == old(server.outbox) + Broadcast(server.playerManager.players, l.members,
                                                                   UpdateMessage(server.playerManager.players, l))
    {
      var pid: Pid := addr;
      if pid !in server.lobbyManager.waitingPlayers {
        return;
      }
      var lid := server.lobbyManager.waitingPlayers[pid];
      var lobby := server.lobbyManager.lobbies[lid];
      var ready := server.playerManager.ToggleReady(pid);
      server.MembersListed(lid);
      server.BroadcastLobbyUpdate(lobby);
    }

    /** `handle_start_game`: when the sender hosts its lobby and every
        member is ready, the lobby enters the countdown (whatever its
        state was, and however many members it has); otherwise nothing
        changes. The countdown itself is `CountdownAndStart`. */
    method HandleStartGame(addr: Addr)
      requires server.Valid()
      modifies server.lobbyManager
      ensures server.Valid()
      ensures server.lobbyManager.waitingPlayers == old(server.lobbyManager.waitingPlayers)
      ensures addr !in server.lobbyManager.waitingPlayers ==> server.lobbyManager.lobbies == old(server.lobbyManager.lobbies)
      ensures addr in server.lobbyManager.waitingPlayers ==>
                var code := server.lobbyManager.waitingPlayers[addr];
                var l := old(server.lobbyManager.lobbies[code]);
                && Listed(server.playerManager.players, l.members)
                && (addr == l.host && AllReady(server.playerManager.players, l.members) ==>
                      server.lobbyManager.lobbies == old(server.lobbyManager.lobbies)[code := l.(state := Countdown)])
                && (!(addr == l.host && AllReady(server.playerManager.players, l.members)) ==>
                      server.lobbyManager.lobbies == old(server.lobbyManager.lobbies))
    {
      var pid: Pid := addr;
      if pid !in server.lobbyManager.waitingPlayers {
        return;
      }
      var lid := server.lobbyManager.waitingPlayers[pid];
      var lobby := server.lobbyManager.lobbies[lid];
      server.MembersListed(lid);
      if pid == lobby.host && AllReady(server.playerManager.players, lobby.members) {
        RetouchKeepsTablesValid(server.lobbyManager.lobbies, server.lobbyManager.waitingPlayers, lid, lobby.(state := Countdown));
        server.lobbyManager.lobbies := server.lobbyManager.lobbies[lid := lobby.(state := Countdown)];
      }
    }

    /** `handle_player_input`: if the sender's lobby has a running
        session, the input is merged into the sender's entry there. No
        other session, and nothing else, can change. */
    method HandlePlayerInput(addr: Addr, input: PlayerInput)
      requires server.Valid()
      modifies if addr in server.lobbyManager.waitingPlayers && server.lobbyManager.waitingPlayers[addr] in server.gameSessions
               then {server.gameSessions[server.lobbyManager.waitingPlayers[addr]]} else {}
      ensures server.Valid()
      ensures addr in server.lobbyManager.waitingPlayers && server.lobbyManager.waitingPlayers[addr] in server.gameSessions ==>
                var s := server.gameSessions[server.lobbyManager.waitingPlayers[addr]];
                && (addr in old(s.players) ==> s.players == old(s.players)[addr := Merge(old(s.players)[addr], input)])
                && (addr !in old(s.players) ==> s.players == old(s.players))
                && s.enemies == old(s.enemies)
    {
      var pid: Pid := addr;
      if pid in server.lobbyManager.waitingPlayers && server.lobbyManager.waitingPlayers[pid] in server.gameSessions {
        var session := server.gameSessions[server.lobbyManager.waitingPlayers[pid]];
        session.UpdatePlayer(pid, input);
      }
    }

    /** `handle_character_select`: the sender's character is set (to
        "warrior" when the message names none) whether or not it is in a
        lobby; if it is, every member is told. */
    method HandleCharacterSelect(addr: Addr, character: Option<string>)
      requires server.Valid()
      modifies server, server.playerManager
      ensures server.Valid() && server.gameSessions == old(server.gameSessions)
      ensures server.playerManager.players ==
                WithCharacter(old(server.playerManager.players), addr, CharacterOr(character, DEFAULT_CHARACTER))
      ensures addr !in server.lobbyManager.waitingPlayers ==> server.outbox == old(server.outbox)
      ensures addr in server.lobbyManager.waitingPlayers ==>
                var l := server.lobbyManager.lobbies[server.lobbyManager.waitingPlayers[addr]];
                && Listed(server.playerManager.players, l.members)
                && server.outbox == old(server.outbox) + Broadcast(server.playerManager.players, l.members,
                                                                   CharacterChanged(addr, CharacterOr(character, DEFAULT_CHARACTER)))
    {
      var pid: Pid := addr;
      var ch := CharacterOr(character, DEFAULT_CHARACTER);
      server.playerManager.SetCharacter(pid, ch);
      if pid !in server.lobbyManager.waitingPlayers {
        return;
      }
      var lid := server.lobbyManager.waitingPlayers[pid];
      var lobby := server.lobbyManager.lobbies[lid];
      server.MembersListed(lid);
      server.outbox := server.outbox + Broadcast(server.playerManager.players, lobby.members, CharacterChanged(pid, ch));
    }

    /** `unknown_command`: an error to the sender. */
    method UnknownCommand(addr: Addr)
      modifies server
      ensures server.outbox == old(server.outbox) + [Outbound(addr, Error(UNKNOWN_ERROR))]
      ensures server.gameSessions == old(server.gameSessions)
    {
      server.outbox := server.outbox + [Outbound(addr, Error(UNKNOWN_ERROR))];
    }
  }
}
