/** The game engine's entry points (src/game/engine.ts): the initial game
    state, and the two rule queries it hands to the resolvers. */
module Engine {
  import opened DeckEntries
  import opened Rules

  /** `PlayerState` (src/game/types.ts). */
  datatype PlayerState = PlayerState(id: string, health: int, hand: seq<CardId>, deck: seq<CardId>, discard: seq<CardId>)

  /** `GameState`; `players` is the record keyed by player id. */
  datatype GameState = GameState(turn: int, activePlayerId: string, players: map<string, PlayerState>)

  /** `Object.fromEntries(players.map((player) => [player.id, player]))`: a later
      player with the same id overwrites an earlier one. */
  function PlayersById(players: seq<PlayerState>): (m: map<string, PlayerState>)
    ensures forall id :: id in m <==> exists i :: 0 <= i < |players| && players[i].id == id
    ensures forall id :: id in m ==> m[id].id == id
  {
    if players == [] then map[]
    else
      var n := |players| - 1;
      var prev := PlayersById(players[..n]);
      assert forall i :: 0 <= i < n ==> players[..n][i] == players[i];
      prev[players[n].id := players[n]]
  }

  /** Each id maps to the last player in the list that has it. */
  lemma {:induction false} PlayersLastWins(players: seq<PlayerState>, i: nat)
    requires i < |players|
    requires forall j :: i < j < |players| ==> players[j].id != players[i].id
    ensures PlayersById(players)[players[i].id] == players[i]
  {
    var n := |players| - 1;
    if i < n {
      PlayersLastWins(players[..n], i);
    }
  }

  /** `createInitialState(players)`. */
  function CreateInitialState(players: seq<PlayerState>): (s: GameState)
    ensures s.turn == 1
    ensures players == [] ==> s.activePlayerId == "" && s.players == map[]
    ensures players != [] ==> s.activePlayerId == players[0].id && s.activePlayerId in s.players
    ensures s.players.Keys == set i | 0 <= i < |players| :: players[i].id
  {
    GameState(1, if players == [] then "" else players[0].id, PlayersById(players))
  }

  /** With distinct ids, every player is in the initial state exactly as given. */
  lemma InitialPlayers(players: seq<PlayerState>)
    requires forall i, j :: 0 <= i < j < |players| ==> players[i].id != players[j].id
    ensures forall i :: 0 <= i < |players| ==> CreateInitialState(players).players[players[i].id] == players[i]
    ensures |CreateInitialState(players).players| == |players|
  {
    forall i | 0 <= i < |players| ensures CreateInitialState(players).players[players[i].id] == players[i] {
      PlayersLastWins(players, i);
    }
    DistinctIdCount(players);
  }

  lemma {:induction false} DistinctIdCount(players: seq<PlayerState>)
    requires forall i, j :: 0 <= i < j < |players| ==> players[i].id != players[j].id
    ensures |PlayersById(players)| == |players|
  {
    if players != [] {
      var n := |players| - 1;
      var prefix := players[..n];
      assert forall i, j :: 0 <= i < j < |prefix| ==> prefix[i].id != prefix[j].id;
      DistinctIdCount(prefix);
      assert forall i :: 0 <= i < |prefix| ==> prefix[i].id != players[n].id;
      assert players[n].id !in PlayersById(prefix);
      assert PlayersById(players) == PlayersById(prefix)[players[n].id := players[n]];
    }
  }

  /** `evaluateActionPermissions(permissions)`: the decision the resolver makes. */
  function EvaluateActionPermissions(ps: seq<EffectPermission>): (r: PermissionResolution)
    ensures r.allowed <==> !Has(ps, CardSource, Forbid) && (Has(ps, CardSource, Allow) || !Has(ps, RuleSource, Forbid))
    ensures r == ResolvePermissions(ps)
  {
    PermissionOutcome(ps);
    ResolvePermissions(ps)
  }

  /** `resolveCardInstructions(instructions)`: only the possible instructions, in order. */
  function ResolveCardInstructions(ins: seq<GameInstruction>): (r: InstructionResolution)
    ensures forall x :: x in r.instructions <==> x in ins && x.possible
    ensures r == ResolveInstructions(ins)
  {
    ResolveInstructions(ins)
  }
}
