/**
 * The game store: the session state and the actions that change it.
 *
 * Two collaborators are not part of this model: `generateRandomSpin`, held as
 * a function whose randomness is an explicit seed and which may answer null
 * (None), and `hasSpinsRemaining`, held as an uninterpreted predicate. Both
 * are fixed when the store is made.
 */
module Store {
  import opened Wrappers
  import opened SpinTypes
  import opened Players

  /** The logged-in player: registry entry plus progress. */
  datatype PlayerState = PlayerState(
    id: string,
    nickname: string,
    avatar: string,
    currentSpinIndex: int,
    inventory: seq<SpinResult>)

  /** The part of the store that is written to storage (`partialize`). */
  datatype Persisted = Persisted(isAuthenticated: bool, currentPlayer: Option<PlayerState>)

  /** `generateRandomSpin(nickname, collectedItemIds)`, with the draw's randomness as the last argument; None is null. */
  type SpinGenerator = (string, seq<string>, nat) -> Option<ScriptedSpin>

  /** `inventory.map(r => r.item.id)`. */
  function CollectedIds(inventory: seq<SpinResult>): (ids: seq<string>)
    ensures |ids| == |inventory|
    ensures forall i :: 0 <= i < |inventory| ==> ids[i] == inventory[i].item.id
  {
    seq(|inventory|, i requires 0 <= i < |inventory| => inventory[i].item.id)
  }

  /** A fresh player: index 0 and an empty inventory. */
  function FreshPlayer(info: PlayerInfo): (ps: PlayerState)
    ensures ps.currentSpinIndex == 0 && ps.inventory == []
    ensures ps.id == info.id && ps.nickname == info.nickname && ps.avatar == info.avatar
  {
    PlayerState(info.id, info.nickname, info.avatar, 0, [])
  }

  class GameStore {
    const generateRandomSpin: SpinGenerator
    const hasSpinsRemaining: (string, int) -> bool

    var isAuthenticated: bool
    var currentPlayer: Option<PlayerState>
    var isSpinning: bool
    var lastResult: Option<SpinResult>
    var showVictoryScreen: bool
    var currentSpin: Option<ScriptedSpin>

    /** The inventory holds one result per completed spin. */
    predicate Valid()
      reads this
    {
      currentPlayer.Some? ==> |currentPlayer.value.inventory| == currentPlayer.value.currentSpinIndex
    }

    /** The six state fields hold their initial values. */
    predicate IsInitial()
      reads this
    {
      && !isAuthenticated
      && currentPlayer.None?
      && !isSpinning
      && lastResult.None?
      && !showVictoryScreen
      && currentSpin.None?
    }

    /** The store as first created, before anything is restored from storage. */
    constructor (generate: SpinGenerator, spinsRemaining: (string, int) -> bool)
      ensures generateRandomSpin == generate && hasSpinsRemaining == spinsRemaining
      ensures IsInitial() && Valid()
    {
      generateRandomSpin := generate;
      hasSpinsRemaining := spinsRemaining;
      isAuthenticated := false;
      currentPlayer := None;
      isSpinning := false;
      lastResult := None;
      showVictoryScreen := false;
      currentSpin := None;
    }

    /**
     * The store restored from storage: the saved fields over the initial state,
     * then, when a player was saved, a new spin generated from the item ids of
     * the saved inventory (`onRehydrateStorage`). The reel itself is never stored.
     */
    constructor Rehydrated(generate: SpinGenerator, spinsRemaining: (string, int) -> bool, saved: Persisted, seed: nat)
      ensures generateRandomSpin == generate && hasSpinsRemaining == spinsRemaining
      ensures Snapshot() == saved
      ensures !isSpinning && lastResult.None? && !showVictoryScreen
      ensures saved.currentPlayer.None? ==> currentSpin.None?
      ensures saved.currentPlayer.Some? ==>
        currentSpin == generate(saved.currentPlayer.value.nickname, CollectedIds(saved.currentPlayer.value.inventory), seed)
    {
      generateRandomSpin := generate;
      hasSpinsRemaining := spinsRemaining;
      isAuthenticated := saved.isAuthenticated;
      currentPlayer := saved.currentPlayer;
      isSpinning := false;
      lastResult := None;
      showVictoryScreen := false;
      currentSpin := None;
      if saved.currentPlayer.Some? {
        var player := saved.currentPlayer.value;
        currentSpin := generate(player.nickname, CollectedIds(player.inventory), seed);
      }
    }

    /** `partialize`: only the authentication flag and the player are kept. */
    function Snapshot(): (s: Persisted)
      reads this
      ensures s.isAuthenticated == isAuthenticated && s.currentPlayer == currentPlayer
    {
      Persisted(isAuthenticated, currentPlayer)
    }

    /** `hasMoreSpins`: false without a player, otherwise what hasSpinsRemaining says for the player's index. */
    function HasMoreSpins(): (more: bool)
      reads this
      ensures more ==> currentPlayer.Some?
      ensures currentPlayer.Some? ==>
        (more <==> hasSpinsRemaining(currentPlayer.value.nickname, currentPlayer.value.currentSpinIndex))
    {
      if currentPlayer.None? then false
      else hasSpinsRemaining(currentPlayer.value.nickname, currentPlayer.value.currentSpinIndex)
    }

    /**
     * `login`: an unknown nickname changes nothing and answers false. A known
     * one installs a fresh player with the registry's upper-case nickname and a
     * first spin, and touches neither isSpinning, lastResult nor showVictoryScreen.
     */
    method Login(nickname: string, seed: nat) returns (ok: bool)
      modifies this
      ensures ok <==> IsValidNickname(nickname)
      ensures !ok ==> unchanged(this)
      ensures ok ==>
        && isAuthenticated
        && currentPlayer == Some(FreshPlayer(GetPlayerInfo(nickname).value))
        && currentSpin == generateRandomSpin(nickname, [], seed)
        && Valid()
      ensures isSpinning == old(isSpinning) && lastResult == old(lastResult)
      ensures showVictoryScreen == old(showVictoryScreen)
    {
      var playerInfo := GetPlayerInfo(nickname);
      if playerInfo.Some? {
        var firstSpin := generateRandomSpin(nickname, [], seed);
        isAuthenticated := true;
        currentPlayer := Some(FreshPlayer(playerInfo.value));
        currentSpin := firstSpin;
        return true;
      }
      return false;
    }

    /** `logout`: every state field back to its initial value. */
    method Logout()
      modifies this
      ensures IsInitial() && Valid()
    {
      isAuthenticated := false;
      currentPlayer := None;
      isSpinning := false;
      lastResult := None;
      showVictoryScreen := false;
      currentSpin := None;
    }

    /**
     * `prepareSpin`: generates a spin from the collected ids, but never
     * replaces an existing one, and does nothing without a player or without
     * spins remaining.
     */
    method PrepareSpin(seed: nat)
      modifies this
      ensures old(currentPlayer.None? || currentSpin.Some? || !HasMoreSpins()) ==> unchanged(this)
      ensures old(currentPlayer.Some? && currentSpin.None? && HasMoreSpins()) ==>
        currentSpin == generateRandomSpin(old(currentPlayer).value.nickname, CollectedIds(old(currentPlayer).value.inventory), seed)
      ensures isAuthenticated == old(isAuthenticated) && currentPlayer == old(currentPlayer)
      ensures isSpinning == old(isSpinning) && lastResult == old(lastResult)
      ensures showVictoryScreen == old(showVictoryScreen)
      ensures old(currentSpin).Some? ==> currentSpin == old(currentSpin)
    {
      if currentPlayer.None? {
        return;
      }
      if currentSpin.Some? {
        return;
      }
      var player := currentPlayer.value;
      if !hasSpinsRemaining(player.nickname, player.currentSpinIndex) {
        return;
      }
      var collectedItemIds := CollectedIds(player.inventory);
      currentSpin := generateRandomSpin(player.nickname, collectedItemIds, seed);
    }

    /**
     * `startSpin`: with a player, a prepared spin and spins remaining, marks the
     * spin as running and hides the victory screen; otherwise nothing changes.
     */
    method StartSpin()
      modifies this
      ensures old(currentPlayer.None? || currentSpin.None? || !HasMoreSpins()) ==> unchanged(this)
      ensures old(currentPlayer.Some? && currentSpin.Some? && HasMoreSpins()) ==> isSpinning && !showVictoryScreen
      ensures isAuthenticated == old(isAuthenticated) && currentPlayer == old(currentPlayer)
      ensures lastResult == old(lastResult) && currentSpin == old(currentSpin)
    {
      if currentPlayer.None? || currentSpin.None? {
        return;
      }
      var player := currentPlayer.value;
      if !hasSpinsRemaining(player.nickname, player.currentSpinIndex) {
        return;
      }
      isSpinning := true;
      showVictoryScreen := false;
    }

    /**
     * `completeSpin`: appends the result to the inventory and advances the
     * index by one, keeping the two in step; shows the victory screen with the
     * result; and prepares the next spin only if spins remain at the new index.
     * Without a player nothing changes.
     */
    method CompleteSpin(result: SpinResult, seed: nat)
      modifies this
      ensures old(currentPlayer.None?) ==> unchanged(this)
      ensures old(currentPlayer.Some?) ==>
        var before := old(currentPlayer.value);
        var newIndex := before.currentSpinIndex + 1;
        && currentPlayer == Some(before.(currentSpinIndex := newIndex, inventory := before.inventory + [result]))
        && !isSpinning && lastResult == Some(result) && showVictoryScreen
        && (!hasSpinsRemaining(before.nickname, newIndex) ==> currentSpin.None?)
        && (hasSpinsRemaining(before.nickname, newIndex) ==>
              currentSpin == generateRandomSpin(before.nickname, CollectedIds(before.inventory + [result]), seed))
      ensures isAuthenticated == old(isAuthenticated)
      ensures old(Valid()) ==> Valid()
    {
      if currentPlayer.None? {
        return;
      }
      var player := currentPlayer.value;
      var newSpinIndex := player.currentSpinIndex + 1;
      var updatedInventory := player.inventory + [result];
      var updatedPlayer := player.(currentSpinIndex := newSpinIndex, inventory := updatedInventory);
      var collectedItemIds := CollectedIds(updatedInventory);
      var nextSpin := if hasSpinsRemaining(player.nickname, newSpinIndex)
        then generateRandomSpin(player.nickname, collectedItemIds, seed)
        else None;
      isSpinning := false;
      lastResult := Some(result);
      showVictoryScreen := true;
      currentPlayer := Some(updatedPlayer);
      currentSpin := nextSpin;
    }

    /** `closeVictoryScreen`: hides the victory screen and forgets the last result, nothing else. */
    method CloseVictoryScreen()
      modifies this
      ensures !showVictoryScreen && lastResult.None?
      ensures isAuthenticated == old(isAuthenticated) && currentPlayer == old(currentPlayer)
      ensures isSpinning == old(isSpinning) && currentSpin == old(currentSpin)
    {
      showVictoryScreen := false;
      lastResult := None;
    }

    /**
     * `resetPlayer`: with a registered player, starts them over (index 0, empty
     * inventory, a first spin) and clears the spin flags and the last result;
     * otherwise nothing changes. Authentication is left alone.
     */
    method ResetPlayer(seed: nat)
      modifies this
      ensures old(currentPlayer.None? || GetPlayerInfo(currentPlayer.value.nickname).None?) ==> unchanged(this)
      ensures old(currentPlayer.Some? && GetPlayerInfo(currentPlayer.value.nickname).Some?) ==>
        && currentPlayer == Some(FreshPlayer(GetPlayerInfo(old(currentPlayer.value.nickname)).value))
        && !isSpinning && lastResult.None? && !showVictoryScreen
        && currentSpin == generateRandomSpin(old(currentPlayer.value.nickname), [], seed)
        && Valid()
      ensures isAuthenticated == old(isAuthenticated)
    {
      if currentPlayer.None? {
        return;
      }
      var nickname := currentPlayer.value.nickname;
      var playerInfo := GetPlayerInfo(nickname);
      if playerInfo.Some? {
        var firstSpin := generateRandomSpin(nickname, [], seed);
        currentPlayer := Some(FreshPlayer(playerInfo.value));
        isSpinning := false;
        lastResult := None;
        showVictoryScreen := false;
        currentSpin := firstSpin;
      }
    }
  }

  /**
   * A whole round as the game screen drives it: start the prepared spin, then
   * report its result. The inventory grows by exactly that result and stays in
   * step with the index.
   */
  method PlayRound(store: GameStore, result: SpinResult, seed: nat)
    requires store.Valid() && store.currentPlayer.Some? && store.currentSpin.Some? && store.HasMoreSpins()
    modifies store
    ensures store.Valid()
    ensures store.currentPlayer.Some?
    ensures store.currentPlayer.value.inventory == old(store.currentPlayer.value.inventory) + [result]
    ensures store.currentPlayer.value.currentSpinIndex == old(store.currentPlayer.value.currentSpinIndex) + 1
    ensures store.lastResult == Some(result) && store.showVictoryScreen && !store.isSpinning
  {
    store.StartSpin();
    assert store.isSpinning;
    store.CompleteSpin(result, seed);
  }
}
