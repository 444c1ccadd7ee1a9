/** Whole conversations with the lobby tables, from empty tables on. */
module Scenarios {
  import opened Common
  import opened Text
  import opened Lobby

  /** `join_lobby` checks no capacity: a third player joins a lobby that
      `find_lobby` already reports as unavailable, and the lobby then has
      more members than there are spawn points. */
  method ThirdPlayerJoins(a: Pid, b: Pid, c: Pid, code: string) returns (offered: bool, lobby: GameLobby)
    requires a != b && b != c && a != c && IsLobbyCode(code)
    ensures !offered
    ensures lobby.members == [a, b, c] && lobby.host == a
  {
    var manager := new LobbyManager();
    var created := manager.CreateLobby(a, code);
    var joined := manager.JoinLobby(b, code);
    offered := manager.FindLobby(code).Some?;
    joined := manager.JoinLobby(c, code);
    lobby := joined.value;
  }

  /** The host leaving hands the lobby to the member who joined after it. */
  method HostLeaves(a: Pid, b: Pid, code: string) returns (after: Option<GameLobby>)
    requires a != b && IsLobbyCode(code)
    ensures after.Some? && after.value.host == b && after.value.members == [b]
  {
    var manager := new LobbyManager();
    var created := manager.CreateLobby(a, code);
    var joined := manager.JoinLobby(b, code);
    after := manager.ExitLobby(a);
  }
}
