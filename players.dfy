/**
 * Reel construction and the player registry: a reel of fixed length with the
 * winning item at a winning index inside a rarity-dependent window, the two
 * players' ten scripted templates, and case-insensitive nickname lookup.
 *
 * The filler pools COMMON_ITEMS .. MYTHIC_ITEMS are not part of this model:
 * they arrive as a FillerPools value. The random choices (which filler pool,
 * which index in it, where in the window the winner lands) arrive as
 * parameters.
 */
module Players {
  import opened Wrappers
  import opened SpinTypes
  import opened Text

  /** The six filler pools, in the order of their names. */
  datatype FillerPools = FillerPools(
    common: seq<SpinItem>,
    uncommon: seq<SpinItem>,
    rare: seq<SpinItem>,
    epic: seq<SpinItem>,
    legendary: seq<SpinItem>,
    mythic: seq<SpinItem>)

  datatype Pool = CommonPool | UncommonPool | RarePool | EpicPool | LegendaryPool | MythicPool

  function PoolItems(p: FillerPools, pool: Pool): seq<SpinItem>
  {
    match pool
    case CommonPool => p.common
    case UncommonPool => p.uncommon
    case RarePool => p.rare
    case EpicPool => p.epic
    case LegendaryPool => p.legendary
    case MythicPool => p.mythic
  }

  /** The five branches a background item can come from; the mythic pool is not one of them. */
  datatype FillerTier = CommonFiller | UncommonFiller | RareFiller | EpicFiller | LegendaryFiller

  function TierPool(p: FillerPools, t: FillerTier): seq<SpinItem>
  {
    match t
    case CommonFiller => p.common
    case UncommonFiller => p.uncommon
    case RareFiller => p.rare
    case EpicFiller => p.epic
    case LegendaryFiller => p.legendary
  }

  /** Everything a background item may be: the common to legendary filler pools, never the mythic one. */
  function BackgroundItems(p: FillerPools): seq<SpinItem>
  {
    p.common + p.uncommon + p.rare + p.epic + p.legendary
  }

  /** The outcome of the two random draws for one background slot: a branch and an index into its pool. */
  datatype FillerPick = FillerPick(tier: FillerTier, index: nat)

  /** Every slot other than the winning one has a pick that indexes inside its pool. */
  predicate PicksCover(p: FillerPools, picks: seq<FillerPick>, winningPosition: int, totalItems: int)
  {
    && |picks| >= totalItems
    && forall i :: 0 <= i < totalItems && i != winningPosition ==> picks[i].index < |TierPool(p, picks[i].tier)|
  }

  function Filler(p: FillerPools, pick: FillerPick): (item: SpinItem)
    requires pick.index < |TierPool(p, pick.tier)|
    ensures item in BackgroundItems(p)
  {
    TierPool(p, pick.tier)[pick.index]
  }

  /**
   * The reel `generateSpinItems` builds: `totalItems` slots (none when it is
   * negative), the winning item at `winningPosition` when that is a slot, and
   * every other slot the background item its pick selects.
   */
  function SpinItems(winningItem: SpinItem, winningPosition: int, totalItems: int, p: FillerPools, picks: seq<FillerPick>): (items: seq<SpinItem>)
    requires PicksCover(p, picks, winningPosition, totalItems)
    ensures |items| == if totalItems < 0 then 0 else totalItems
    ensures 0 <= winningPosition < totalItems ==> items[winningPosition] == winningItem
    ensures forall i :: 0 <= i < |items| && i != winningPosition ==> items[i] == Filler(p, picks[i]) && items[i] in BackgroundItems(p)
  {
    var n := if totalItems < 0 then 0 else totalItems;
    seq(n, i requires 0 <= i < n => if i == winningPosition then winningItem else Filler(p, picks[i]))
  }

  /** `generateSpinItems`: the loop that pushes one item per slot. */
  method GenerateSpinItems(winningItem: SpinItem, winningPosition: int, totalItems: int, p: FillerPools, picks: seq<FillerPick>)
    returns (items: seq<SpinItem>)
    requires PicksCover(p, picks, winningPosition, totalItems)
    ensures items == SpinItems(winningItem, winningPosition, totalItems, p, picks)
  {
    items := [];
    var i := 0;
    while i < totalItems
      invariant 0 <= i && (i == 0 || i <= totalItems)
      invariant |items| == i
      invariant forall k :: 0 <= k < i ==> items[k] == (if k == winningPosition then winningItem else Filler(p, picks[k]))
    {
      if i == winningPosition {
        items := items + [winningItem];
      } else {
        var pool := TierPool(p, picks[i].tier);
        items := items + [pool[picks[i].index]];
      }
      i := i + 1;
    }
    ghost var spec := SpinItems(winningItem, winningPosition, totalItems, p, picks);
    assert |items| == |spec|;
    assert forall k :: 0 <= k < |spec| ==> items[k] == spec[k];
  }

  /** A template fixes the winner and the timing; the reel is built fresh from it each time. */
  datatype SpinTemplate = SpinTemplate(winningItem: SpinItem, duration: int, easing: Easing)

  /** `createSpinTemplate`, with its defaults of 5000 ms and easeOut. */
  function CreateSpinTemplate(winningItem: SpinItem, duration: int := 5000, easing: Easing := EaseOut): (t: SpinTemplate)
    ensures t.winningItem == winningItem && t.duration == duration && t.easing == easing
  {
    SpinTemplate(winningItem, duration, easing)
  }

  /** Legendary and mythic winners get the long reel. */
  predicate IsHighTier(r: Rarity)
  {
    r == Legendary || r == Mythic
  }

  function ReelLength(t: SpinTemplate): nat
  {
    if IsHighTier(t.winningItem.rarity) then 200 else 50
  }

  /** How many positions the winner may land on: 20 on the long reel, 10 on the short one. */
  function WindowSize(t: SpinTemplate): nat
  {
    if IsHighTier(t.winningItem.rarity) then 20 else 10
  }

  function WinningPosition(t: SpinTemplate, offset: nat): nat
  {
    (if IsHighTier(t.winningItem.rarity) then 150 else 35) + offset
  }

  /** The random inputs fit the template: the offset is inside the window and every background slot has a pick. */
  predicate DrawsFit(t: SpinTemplate, p: FillerPools, offset: nat, picks: seq<FillerPick>)
  {
    offset < WindowSize(t) && PicksCover(p, picks, WinningPosition(t, offset), ReelLength(t))
  }

  /**
   * `createSpinFromTemplate`: a legendary or mythic winner gets 200 items with
   * the winner at 150..169, any other winner 50 items with the winner at
   * 35..44; the winner sits at the winning index and the timing is copied.
   */
  function CreateSpinFromTemplate(t: SpinTemplate, p: FillerPools, offset: nat, picks: seq<FillerPick>): (spin: ScriptedSpin)
    requires DrawsFit(t, p, offset, picks)
    ensures IsHighTier(t.winningItem.rarity) ==> |spin.items| == 200 && 150 <= spin.winningIndex <= 169
    ensures !IsHighTier(t.winningItem.rarity) ==> |spin.items| == 50 && 35 <= spin.winningIndex <= 44
    ensures 0 <= spin.winningIndex < |spin.items| && spin.items[spin.winningIndex] == t.winningItem
    ensures forall i :: 0 <= i < |spin.items| && i != spin.winningIndex ==> spin.items[i] in BackgroundItems(p)
    ensures spin.duration == t.duration && spin.easing == t.easing
  {
    var totalItems := ReelLength(t);
    var winningPosition := WinningPosition(t, offset);
    ScriptedSpin(SpinItems(t.winningItem, winningPosition, totalItems, p, picks), winningPosition, t.duration, t.easing)
  }

  /** One row of a template table: `createSpinTemplate(POOL[index], duration)`. */
  datatype TemplateRef = TemplateRef(pool: Pool, index: nat, duration: int)

  /** KLENKO's ten gifts. */
  const KlenkoTemplates: seq<TemplateRef> := [
    TemplateRef(CommonPool, 0, 4000),
    TemplateRef(CommonPool, 3, 4500),
    TemplateRef(UncommonPool, 1, 5000),
    TemplateRef(RarePool, 0, 5500),
    TemplateRef(UncommonPool, 6, 4500),
    TemplateRef(EpicPool, 0, 6000),
    TemplateRef(RarePool, 4, 5000),
    TemplateRef(EpicPool, 4, 6500),
    TemplateRef(LegendaryPool, 0, 7000),
    TemplateRef(MythicPool, 2, 8000)
  ]

  /** HOHOYKS's ten gifts. */
  const HohoyksTemplates: seq<TemplateRef> := [
    TemplateRef(UncommonPool, 1, 4000),
    TemplateRef(RarePool, 1, 5000),
    TemplateRef(CommonPool, 5, 4000),
    TemplateRef(EpicPool, 1, 6000),
    TemplateRef(RarePool, 2, 5000),
    TemplateRef(UncommonPool, 5, 4500),
    TemplateRef(LegendaryPool, 3, 7000),
    TemplateRef(EpicPool, 3, 5500),
    TemplateRef(LegendaryPool, 4, 7500),
    TemplateRef(MythicPool, 0, 8500)
  ]

  /** The template table for a nickname: KLENKO's for KLENKO, HOHOYKS's for every other nickname. */
  function TemplatesFor(nickname: string): (refs: seq<TemplateRef>)
    ensures ToUpper(nickname) == "KLENKO" ==> refs == KlenkoTemplates
    ensures ToUpper(nickname) != "KLENKO" ==> refs == HohoyksTemplates
  {
    if ToUpper(nickname) == "KLENKO" then KlenkoTemplates else HohoyksTemplates
  }

  /** The filler pool holds the item a template row points at. */
  predicate Resolves(p: FillerPools, ref: TemplateRef)
  {
    ref.index < |PoolItems(p, ref.pool)|
  }

  function Resolve(p: FillerPools, ref: TemplateRef): (t: SpinTemplate)
    requires Resolves(p, ref)
    ensures t.winningItem == PoolItems(p, ref.pool)[ref.index]
    ensures t.duration == ref.duration && t.easing == EaseOut
  {
    CreateSpinTemplate(PoolItems(p, ref.pool)[ref.index], ref.duration)
  }

  /** `getSpinCount`: the length of the nickname's template table, 10 for everyone. */
  function GetSpinCount(nickname: string): (n: nat)
    ensures n == |TemplatesFor(nickname)|
    ensures n == 10
  {
    |TemplatesFor(nickname)|
  }

  /**
   * `generateSpin`: None exactly when the index is outside the template table;
   * otherwise a fresh reel for that template, with its winner at the winning index.
   */
  function GenerateSpin(nickname: string, spinIndex: int, p: FillerPools, offset: nat, picks: seq<FillerPick>): (r: Option<ScriptedSpin>)
    requires 0 <= spinIndex < GetSpinCount(nickname) ==>
      var ref := TemplatesFor(nickname)[spinIndex];
      Resolves(p, ref) && DrawsFit(Resolve(p, ref), p, offset, picks)
    ensures r.None? <==> spinIndex < 0 || spinIndex >= GetSpinCount(nickname)
    ensures r.Some? ==>
      var ref := TemplatesFor(nickname)[spinIndex];
      && 0 <= r.value.winningIndex < |r.value.items|
      && r.value.items[r.value.winningIndex] == PoolItems(p, ref.pool)[ref.index]
      && r.value.duration == ref.duration && r.value.easing == EaseOut
  ensures r.Some? ==>
      var ref := TemplatesFor(nickname)[spinIndex];
      var winner := PoolItems(p, ref.pool)[ref.index];
      && (IsHighTier(winner.rarity) ==> |r.value.items| == 200 && 150 <= r.value.winningIndex <= 169)
      && (!IsHighTier(winner.rarity) ==> |r.value.items| == 50 && 35 <= r.value.winningIndex <= 44)
  {
    var templates := TemplatesFor(nickname);
    if spinIndex < 0 || spinIndex >= |templates| then None
    else Some(CreateSpinFromTemplate(Resolve(p, templates[spinIndex]), p, offset, picks))
  }

  /** The registry entry of a player. */
  datatype PlayerInfo = PlayerInfo(id: string, nickname: string, avatar: string)

  /** PLAYERS, keyed by upper-case nickname. */
  const PlayersTable: map<string, PlayerInfo> := map[
    "KLENKO" := PlayerInfo("klenko", "KLENKO", "🎅"),
    "HOHOYKS" := PlayerInfo("hohoyks", "HOHOYKS", "🎄")
  ]

  const ValidNicknames: seq<string> := ["KLENKO", "HOHOYKS"]

  /** `isValidNickname`: the upper-cased nickname is KLENKO or HOHOYKS. */
  function IsValidNickname(nickname: string): (ok: bool)
    ensures ok <==> ToUpper(nickname) == "KLENKO" || ToUpper(nickname) == "HOHOYKS"
  {
    ToUpper(nickname) in ValidNicknames
  }

  /**
   * `getPlayerInfo`: defined exactly for the valid nicknames, whatever their
   * case, and the entry found carries the upper-cased nickname.
   */
  function GetPlayerInfo(nickname: string): (r: Option<PlayerInfo>)
    ensures r.Some? <==> IsValidNickname(nickname)
    ensures r.Some? ==> r.value.nickname == ToUpper(nickname)
  {
    var upperNickname := ToUpper(nickname);
    if upperNickname in PlayersTable then Some(PlayersTable[upperNickname]) else None
  }

  /** Validation and lookup ignore case: a nickname and its upper-cased form are treated alike. */
  lemma LookupIgnoresCase(nickname: string)
    ensures IsValidNickname(ToUpper(nickname)) == IsValidNickname(nickname)
    ensures GetPlayerInfo(ToUpper(nickname)) == GetPlayerInfo(nickname)
  {
    ToUpperIdempotent(nickname);
  }

  /** A nickname spelt with a long s (U+017F) upper-cases to HOHOYKS and so names HOHOYKS's entry. */
  lemma LongSNameIsHohoyks()
    ensures IsValidNickname("HOHOYK\U{017F}")
    ensures GetPlayerInfo("hohoyk\U{017F}") == Some(PlayersTable["HOHOYKS"])
  {
    assert ToUpper("HOHOYK\U{017F}") == "HOHOYKS";
    assert ToUpper("hohoyk\U{017F}") == "HOHOYKS";
  }
}
