/** `PlayerManager`: the directory from player id to the player's record.
    Lobbies refer to these records by id (in the server the lobby's member
    dict holds the very same dict objects), so a change made here is seen
    through every lobby the player belongs to. */
module Players {
  import opened Common

  /** A directory entry: `{'addr', 'username', 'ready'}` plus the
      `'character'` key, which is absent until a character is selected. */
  datatype PlayerData = PlayerData(addr: Addr, username: string, ready: bool, character: Option<string>)

  /** The record `add_player` stores: not ready, no character. */
  function NewPlayer(addr: Addr, username: string): (d: PlayerData)
    ensures d.addr == addr && d.username == username && !d.ready && d.character == None
  {
    PlayerData(addr, username, false, None)
  }

  /** The directory after `toggle_ready(pid)`: only `pid`'s ready flag is
      flipped; an unknown `pid` leaves the directory as it was. */
  function Toggled(players: map<Pid, PlayerData>, pid: Pid): (r: map<Pid, PlayerData>)
    ensures r.Keys == players.Keys
    ensures forall q | q in players && q != pid :: r[q] == players[q]
    ensures pid in players ==>
              r[pid].ready == !players[pid].ready
              && r[pid] == players[pid].(ready := r[pid].ready)
  {
    if pid in players then players[pid := players[pid].(ready := !players[pid].ready)] else players
  }

  /** Toggling the same player twice restores the directory. */
  lemma ToggledTwice(players: map<Pid, PlayerData>, pid: Pid)
    ensures Toggled(Toggled(players, pid), pid) == players
  {
  }

  /** Toggles of two different players commute. */
  lemma ToggledCommute(players: map<Pid, PlayerData>, p: Pid, q: Pid)
    ensures Toggled(Toggled(players, p), q) == Toggled(Toggled(players, q), p)
  {
  }

  /** The directory after `set_character(pid, character)`: only `pid`'s
      character changes; an unknown `pid` leaves the directory as it was. */
  function WithCharacter(players: map<Pid, PlayerData>, pid: Pid, character: string): (r: map<Pid, PlayerData>)
    ensures r.Keys == players.Keys
    ensures forall q | q in players && q != pid :: r[q] == players[q]
    ensures pid in players ==> r[pid] == players[pid].(character := Some(character))
  {
    if pid in players then players[pid := players[pid].(character := Some(character))] else players
  }

  class PlayerManager {
    var players: map<Pid, PlayerData>

    constructor ()
      ensures players == map[]
    {
      players := map[];
    }

    /** `add_player`: a fresh record, replacing any earlier one for `pid`. */
    method AddPlayer(pid: Pid, addr: Addr, username: string)
      modifies this
      ensures players == old(players)[pid := NewPlayer(addr, username)]
    {
      players := players[pid := NewPlayer(addr, username)];
    }

    /** `remove_player`: a no-op for an unknown `pid`. */
    method RemovePlayer(pid: Pid)
      modifies this
      ensures players == old(players) - {pid}
    {
      if pid in players {
        players := players - {pid};
      }
    }

    /** `toggle_ready`: flips the flag and returns its new value; returns
        false and changes nothing for an unknown `pid`. */
    method ToggleReady(pid: Pid) returns (ready: bool)
      modifies this
      ensures players == Toggled(old(players), pid)
      ensures pid in old(players) ==> ready == players[pid].ready == !old(players)[pid].ready
      ensures pid !in old(players) ==> !ready
    {
      if pid in players {
        players := players[pid := players[pid].(ready := !players[pid].ready)];
        return players[pid].ready;
      }
      return false;
    }

    /** `set_character`: a no-op for an unknown `pid`. */
    method SetCharacter(pid: Pid, character: string)
      modifies this
      ensures players == WithCharacter(old(players), pid, character)
    {
      if pid in players {
        players := players[pid := players[pid].(character := Some(character))];
      }
    }
  }
}
