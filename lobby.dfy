/** `GameLobby`, `LobbyState` and `LobbyManager`: the lobby table and the
    index from player to lobby code. */
module Lobby {
  import opened Common
  import opened Text

  datatype LobbyState = Waiting | Countdown | InGame

  /** The countdown value a new lobby starts with. */
  const INITIAL_COUNTDOWN := 2

  /** The number of members at which `find_lobby` reports a lobby as full. */
  const LOBBY_CAPACITY := 2

  /** One chat log entry: author's username, the text, and `time.time()`. */
  datatype ChatEntry = ChatEntry(player: string, text: string, timestamp: real)

  /** A lobby. `members` are the keys of the lobby's `players` dict in
      insertion order; the records themselves are the directory's (see
      `Players`), so they are not copied here. */
  datatype GameLobby = GameLobby(
    id: string,
    host: Pid,
    members: seq<Pid>,
    chatHistory: seq<ChatEntry>,
    state: LobbyState,
    countdown: int)

  /** `GameLobby(host_player)`: no members yet, an empty chat, waiting,
      countdown 2. */
  function NewLobby(code: string, hostPid: Pid): (l: GameLobby)
    ensures l.id == code && l.host == hostPid && l.members == []
    ensures l.chatHistory == [] && l.state == Waiting && l.countdown == INITIAL_COUNTDOWN
  {
    GameLobby(code, hostPid, [], [], Waiting, INITIAL_COUNTDOWN)
  }

  /** A stored lobby is occupied: someone is in it, nobody twice (dict
      keys), and the host is one of them. */
  predicate Occupied(l: GameLobby) {
    l.members != [] && Distinct(l.members) && l.host in l.members
  }

  /** The invariant of the two tables: every lobby is stored under its own
      id and is occupied, and a player is indexed under a code exactly when
      it is a member of the lobby stored there. */
  predicate TablesValid(lobbies: map<string, GameLobby>, index: map<Pid, string>) {
    && (forall code | code in lobbies :: lobbies[code].id == code && Occupied(lobbies[code]))
    && (forall pid | pid in index :: index[pid] in lobbies && pid in lobbies[index[pid]].members)
    && (forall code, pid | code in lobbies && pid in lobbies[code].members :: pid in index && index[pid] == code)
  }

  /** A lobby after `pid` leaves: `pid` removed, and a departing host
      replaced by the first remaining member; nothing else changes. */
  function Leave(l: GameLobby, pid: Pid): (l': GameLobby)
    requires Occupied(l) && pid in l.members
    ensures l'.members == Without(l.members, pid) && |l'.members| == |l.members| - 1
    ensures l'.members != [] ==> Occupied(l')
    ensures l.host != pid ==> l'.host == l.host
    ensures l' == l.(host := l'.host, members := l'.members)
  {
    var rest := Without(l.members, pid);
    if l.host == pid && rest != [] then l.(host := rest[0], members := rest) else l.(members := rest)
  }

  /** When the host leaves a lobby that still has members, the new host is
      the remaining member who joined earliest: everyone who joined before
      it was the departing host. */
  lemma LeaveHandsToEarliest(l: GameLobby, pid: Pid)
    requires Occupied(l) && pid in l.members && l.host == pid
    requires Leave(l, pid).members != []
    ensures exists k | 0 <= k < |l.members| ::
              Leave(l, pid).host == l.members[k] && forall j | 0 <= j < k :: l.members[j] == pid
  {
    WithoutHeadIsEarliest(l.members, pid);
  }

  /** Creating a lobby under an unused code for a player in no lobby keeps
      the tables valid. */
  lemma CreateKeepsTablesValid(lobbies: map<string, GameLobby>, index: map<Pid, string>, code: string, pid: Pid)
    requires TablesValid(lobbies, index)
    requires code !in lobbies && pid !in index
    ensures TablesValid(lobbies[code := NewLobby(code, pid).(members := [pid])], index[pid := code])
  {
  }

  /** `create_lobby` does not check that the drawn code is unused.
      Creating over a code in use replaces that lobby, and its members stay
      indexed under the code of a lobby they are not in. */
  lemma CreateOverCodeInUseBreaksTables(lobbies: map<string, GameLobby>, index: map<Pid, string>, code: string, pid: Pid)
    requires TablesValid(lobbies, index)
    requires code in lobbies && pid !in index
    ensures !TablesValid(lobbies[code := NewLobby(code, pid).(members := [pid])], index[pid := code])
  {
    var lobbies' := lobbies[code := NewLobby(code, pid).(members := [pid])];
    var index' := index[pid := code];
    var q := lobbies[code].members[0];
    assert q in index && q != pid;
    assert q in index' && index'[q] == code && q !in lobbies'[code].members;
  }

  /** A player in no lobby joining an existing lobby keeps the tables
      valid. */
  lemma JoinKeepsTablesValid(lobbies: map<string, GameLobby>, index: map<Pid, string>, code: string, pid: Pid)
    requires TablesValid(lobbies, index)
    requires code in lobbies && pid !in index
    ensures TablesValid(lobbies[code := lobbies[code].(members := lobbies[code].members + [pid])], index[pid := code])
  {
  }

  /** A member leaving keeps the tables valid, the lobby deleted when it
      empties. */
  lemma LeaveKeepsTablesValid(lobbies: map<string, GameLobby>, index: map<Pid, string>, pid: Pid)
    requires TablesValid(lobbies, index) && pid in index
    ensures var code := index[pid];
            var l := Leave(lobbies[code], pid);
            TablesValid(if l.members == [] then lobbies - {code} else lobbies[code := l], index - {pid})
  {
  }

  /** Changing a lobby's chat log, state or countdown keeps the tables
      valid: they depend only on its id, host and members. */
  lemma RetouchKeepsTablesValid(lobbies: map<string, GameLobby>, index: map<Pid, string>, code: string, l: GameLobby)
    requires TablesValid(lobbies, index) && code in lobbies
    requires l.id == lobbies[code].id && l.host == lobbies[code].host && l.members == lobbies[code].members
    ensures TablesValid(lobbies[code := l], index)
  {
  }

  class LobbyManager {
    var lobbies: map<string, GameLobby>
    /** player id -> code of the lobby the player is in */
    var waitingPlayers: map<Pid, string>

    /** The tables are valid, and no lobby has the empty code (codes are
        four characters of a UUID), so the source's `if not lid` test on an
        index lookup is the same as the player not being indexed. */
    ghost predicate Valid()
      reads this
    {
      TablesValid(lobbies, waitingPlayers) && "" !in lobbies
    }

    constructor ()
      ensures Valid() && lobbies == map[] && waitingPlayers == map[]
    {
      lobbies := map[];
      waitingPlayers := map[];
    }

    /** `create_lobby`: a new lobby in state Waiting with `pid` as host and
        sole member, stored under `code` and indexed for `pid`; every other
        lobby is left as it was. The source does not check that `code` is
        unused: a lobby already under it is replaced (see
        `CreateOverCodeInUseBreaksTables`), so the invariant survives only
        when the code is a non-empty unused one and the player is in no
        lobby. */
    method CreateLobby(pid: Pid, code: string) returns (lobby: GameLobby)
      requires Valid()
      modifies this
      ensures lobby.id == code && lobby.host == pid && lobby.members == [pid]
      ensures lobby.chatHistory == [] && lobby.state == Waiting && lobby.countdown == INITIAL_COUNTDOWN
      ensures lobbies == old(lobbies)[code := lobby]
      ensures waitingPlayers == old(waitingPlayers)[pid := code]
      ensures code != "" && code !in old(lobbies) && pid !in old(waitingPlayers) ==> Valid()
    {
      lobby := NewLobby(code, pid);
      lobby := lobby.(members := lobby.members + [pid]);
      lobbies := lobbies[code := lobby];
      waitingPlayers := waitingPlayers[pid := code];
      if code != "" && code !in old(lobbies) && pid !in old(waitingPlayers) {
        CreateKeepsTablesValid(old(lobbies), old(waitingPlayers), code, pid);
      }
    }

    /** `find_lobby`: the lobby under `code`, unless there is none or it
        already has two or more members. */
    function FindLobby(code: string): (r: Option<GameLobby>)
      reads this
      ensures r == None <==> code !in lobbies || |lobbies[code].members| >= LOBBY_CAPACITY
      ensures r != None ==> r.value == lobbies[code] && |r.value.members| < LOBBY_CAPACITY
    {
      if code in lobbies && |lobbies[code].members| < LOBBY_CAPACITY then Some(lobbies[code]) else None
    }

    /** `join_lobby`: adds `pid` to the lobby under `code` and indexes it.
        No capacity check is made here. An unknown code changes nothing. */
    method JoinLobby(pid: Pid, code: string) returns (r: Option<GameLobby>)
      requires Valid()
      modifies this
      ensures code !in old(lobbies) ==>
                r == None && lobbies == old(lobbies) && waitingPlayers == old(waitingPlayers)
      ensures code in old(lobbies) ==>
                var before := old(lobbies[code]);
                && r.Some?
                && r.value == before.(members := if pid in before.members then before.members else before.members + [pid])
                && lobbies == old(lobbies)[code := r.value]
                && waitingPlayers == old(waitingPlayers)[pid := code]
      ensures pid !in old(waitingPlayers) ==> Valid()
    {
      if code !in lobbies {
        return None;
      }
      var lobby := lobbies[code];
      waitingPlayers := waitingPlayers[pid := code];
      if pid !in lobby.members {
        lobby := lobby.(members := lobby.members + [pid]);
        lobbies := lobbies[code := lobby];
      }
      if pid !in old(waitingPlayers) {
        JoinKeepsTablesValid(old(lobbies), old(waitingPlayers), code, pid);
      }
      return Some(lobby);
    }

    /** `exit_lobby`: removes `pid` from its lobby's members and from the
        index. A departing host hands over to the remaining member that
        joined first (`Leave`). A lobby left empty is deleted and nothing
        is returned. A player in no lobby changes nothing. */
    method ExitLobby(pid: Pid) returns (r: Option<GameLobby>)
      requires Valid()
      modifies this
      ensures Valid()
      ensures pid !in old(waitingPlayers) ==>
                r == None && lobbies == old(lobbies) && waitingPlayers == old(waitingPlayers)
      ensures pid in old(waitingPlayers) ==>
                var code := old(waitingPlayers[pid]);
                var after := Leave(old(lobbies[code]), pid);
                && waitingPlayers == old(waitingPlayers) - {pid}
                && (after.members != [] ==> r == Some(after) && lobbies == old(lobbies)[code := after])
                && (after.members == [] ==> r == None && lobbies == old(lobbies) - {code})
    {
      if pid !in waitingPlayers {
        return None;
      }
      var code := waitingPlayers[pid];
      var lobby := lobbies[code];
      LeaveKeepsTablesValid(lobbies, waitingPlayers, pid);
      lobby := lobby.(members := Without(lobby.members, pid));
      waitingPlayers := waitingPlayers - {pid};
      if pid == lobby.host && lobby.members != [] {
        lobby := lobby.(host := lobby.members[0]);
      }
      if lobby.members == [] {
        lobbies := lobbies - {code};
        return None;
      }
      lobbies := lobbies[code := lobby];
      return Some(lobby);
    }
  }
}
