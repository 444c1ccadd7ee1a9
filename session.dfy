/** `GameSession`: the world state of one running game, the players'
    kinematics and the enemies. */
module Session {
  import opened Common

  /** A 2-D point or vector, the `[x, y]` lists of the wire format. */
  datatype Vec = Vec(x: real, y: real)

  /** What the session keeps per player. */
  datatype Kinematics = Kinematics(position: Vec, velocity: Vec, animState: string, direction: string)

  /** What the session keeps per enemy. */
  datatype Enemy = Enemy(body: Kinematics, character: string)

  /** The fields a `player_input` message may carry; an absent key is None. */
  datatype PlayerInput = PlayerInput(
    position: Option<Vec>,
    velocity: Option<Vec>,
    animState: Option<string>,
    direction: Option<string>)

  /** Player spawn points, by join order. */
  const SPAWN_POS: seq<Vec> := [Vec(271.0, 385.0), Vec(716.0, 321.0)]
  /** Enemy spawn points, by enemy number. */
  const ENEMY_SPAWN_POS: seq<Vec> := [Vec(1031.0, 349.0)]
  const ENEMY_COUNT := 1
  const ENEMY_CHARACTER := "Skeleton"

  /** A body standing still at `at`, idle and facing right. */
  function AtRest(at: Vec): (k: Kinematics)
    ensures k.position == at && k.velocity == Vec(0.0, 0.0)
    ensures k.animState == "idle" && k.direction == "right"
  {
    Kinematics(at, Vec(0.0, 0.0), "idle", "right")
  }

  function Pick<T>(given: Option<T>, current: T): T {
    if given.Some? then given.value else current
  }

  /** `player_state.update({...})`: every field the input carries replaces
      the stored one, every other field is kept. */
  function Merge(k: Kinematics, input: PlayerInput): (r: Kinematics)
    ensures r.position == (if input.position.Some? then input.position.value else k.position)
    ensures r.velocity == (if input.velocity.Some? then input.velocity.value else k.velocity)
    ensures r.animState == (if input.animState.Some? then input.animState.value else k.animState)
    ensures r.direction == (if input.direction.Some? then input.direction.value else k.direction)
  {
    Kinematics(
      Pick(input.position, k.position),
      Pick(input.velocity, k.velocity),
      Pick(input.animState, k.animState),
      Pick(input.direction, k.direction))
  }

  /** An input carrying no field. */
  const NO_INPUT := PlayerInput(None, None, None, None)

  /** Two inputs as one: a field of `b` wins over the same field of `a`. */
  function Overlay(a: PlayerInput, b: PlayerInput): PlayerInput {
    PlayerInput(
      if b.position.Some? then b.position else a.position,
      if b.velocity.Some? then b.velocity else a.velocity,
      if b.animState.Some? then b.animState else a.animState,
      if b.direction.Some? then b.direction else a.direction)
  }

  /** An input with no fields leaves the player as it was. */
  lemma MergeNothing(k: Kinematics)
    ensures Merge(k, NO_INPUT) == k
  {
  }

  /** Applying the same input twice is applying it once. */
  lemma MergeIdempotent(k: Kinematics, input: PlayerInput)
    ensures Merge(Merge(k, input), input) == Merge(k, input)
  {
  }

  /** Two updates in a row are the one update of their overlay. */
  lemma MergeOverlay(k: Kinematics, a: PlayerInput, b: PlayerInput)
    ensures Merge(Merge(k, a), b) == Merge(k, Overlay(a, b))
  {
  }

  /** An input carrying every field determines the result alone. */
  lemma MergeFullInput(k: Kinematics, k': Kinematics, input: PlayerInput)
    requires input.position.Some? && input.velocity.Some? && input.animState.Some? && input.direction.Some?
    ensures Merge(k, input) == Merge(k', input)
  {
  }

  class GameSession {
    /** The code of the lobby the session belongs to. */
    const lobbyId: string
    var players: map<Pid, Kinematics>
    var enemies: map<string, Enemy>

    /** The players are exactly `members`, the i-th at `SPAWN_POS[i]` and
        at rest. */
    ghost predicate SpawnedFrom(members: seq<Pid>)
      reads this
    {
      && |members| <= |SPAWN_POS|
      && players.Keys == (set m | m in members)
      && forall k | 0 <= k < |members| :: members[k] in players && players[members[k]] == AtRest(SPAWN_POS[k])
    }

    /** The enemies are exactly those named by `enemyIds`, the i-th a
        Skeleton at rest at `ENEMY_SPAWN_POS[i]`. */
    ghost predicate EnemiesSpawned(enemyIds: seq<string>)
      reads this
    {
      && |enemyIds| <= |ENEMY_SPAWN_POS|
      && enemies.Keys == (set e | e in enemyIds)
      && forall i | 0 <= i < |enemyIds| ::
           enemyIds[i] in enemies && enemies[enemyIds[i]] == Enemy(AtRest(ENEMY_SPAWN_POS[i]), ENEMY_CHARACTER)
    }

    /** `GameSession(lobby)`: the i-th member in join order spawns at
        `SPAWN_POS[i]`, at rest; then `ENEMY_COUNT` skeletons spawn, the
        i-th at `ENEMY_SPAWN_POS[i]`, under the ids drawn for them. The
        source indexes `spawn_pos` by join order, so a lobby of more than
        two members cannot start a session. */
    constructor (code: string, members: seq<Pid>, enemyIds: seq<string>)
      requires |members| <= |SPAWN_POS| && Distinct(members)
      requires |enemyIds| == ENEMY_COUNT
      ensures lobbyId == code
      ensures SpawnedFrom(members)
      ensures EnemiesSpawned(enemyIds)
    {
      lobbyId := code;
      var ps: map<Pid, Kinematics> := map[];
      var i := 0;
      while i < |members|
        invariant 0 <= i <= |members|
        invariant ps.Keys == set m | m in members[..i]
        invariant forall j | 0 <= j < i :: ps[members[j]] == AtRest(SPAWN_POS[j])
      {
        ps := ps[members[i] := AtRest(SPAWN_POS[i])];
        i := i + 1;
      }
      assert members[..i] == members;
      var es: map<string, Enemy> := map[];
      var n := 0;
      while n < ENEMY_COUNT
        invariant 0 <= n <= ENEMY_COUNT
        invariant es.Keys == set e | e in enemyIds[..n]
        invariant forall j | 0 <= j < n :: es[enemyIds[j]] == Enemy(AtRest(ENEMY_SPAWN_POS[j]), ENEMY_CHARACTER)
      {
        es := es[enemyIds[n] := Enemy(AtRest(ENEMY_SPAWN_POS[n]), ENEMY_CHARACTER)];
        n := n + 1;
      }
      assert enemyIds[..n] == enemyIds;
      players := ps;
      enemies := es;
    }

    /** `update_player`: merges the input into `pid`'s entry; a pid with no
        entry changes nothing. The enemies are untouched. */
    method UpdatePlayer(pid: Pid, input: PlayerInput)
      modifies this
      ensures pid in old(players) ==> players == old(players)[pid := Merge(old(players)[pid], input)]
      ensures pid !in old(players) ==> players == old(players)
      ensures enemies == old(enemies)
    {
      if pid in players {
        players := players[pid := Merge(players[pid], input)];
      }
    }
  }
}
