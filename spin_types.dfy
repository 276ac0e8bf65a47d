/**
 * The shared vocabulary of the game: the seven rarities, the item, result and
 * scripted-spin records, and the per-rarity presentation table.
 */
module SpinTypes {
  import opened Wrappers

  /** The rarities, declared from lowest to highest. */
  datatype Rarity = Common | Uncommon | Rare | Epic | Legendary | Mythic | Divine

  /** Position of a rarity in the ascending order common < ... < divine. */
  function Level(r: Rarity): (n: nat)
    ensures n < 7
    ensures n == 0 <==> r == Common
    ensures n == 6 <==> r == Divine
  {
    match r
    case Common => 0
    case Uncommon => 1
    case Rare => 2
    case Epic => 3
    case Legendary => 4
    case Mythic => 5
    case Divine => 6
  }

  /** Every rarity value, in ascending order. */
  const AllRarities: seq<Rarity> := [Common, Uncommon, Rare, Epic, Legendary, Mythic, Divine]

  lemma AllRaritiesListsEachOnce(r: Rarity)
    ensures r in AllRarities && AllRarities[Level(r)] == r
    ensures |AllRarities| == 7
  {
  }

  /** An item of a pool. `image` is the emoji the item is drawn with. */
  datatype SpinItem = SpinItem(
    id: string,
    name: string,
    description: string,
    rarity: Rarity,
    image: string,
    color: string,
    glowColor: string)

  /** One completed spin; `timestamp` is an opaque clock reading. */
  datatype SpinResult = SpinResult(item: SpinItem, spinIndex: int, timestamp: int)

  datatype Easing = EaseOut | EaseInOut | Custom

  /** A reel ready to be animated: the items, where the winner sits, and the timing hints. */
  datatype ScriptedSpin = ScriptedSpin(items: seq<SpinItem>, winningIndex: int, duration: int, easing: Easing)

  /**
   * The non-cosmetic part of one row of RARITY_CONFIG: display name, the two
   * colors items borrow, the confetti count, whether the screen shakes and the
   * name of the special effect (None for JavaScript's null).
   */
  datatype RarityConfig = RarityConfig(
    name: string,
    color: string,
    glowColor: string,
    confettiCount: nat,
    screenShake: bool,
    specialEffect: Option<string>)

  /**
   * RARITY_CONFIG as a total function: every rarity has a row. Effects grow with
   * rarity: no shake and no special effect for common and uncommon, both from rare on.
   */
  function Config(r: Rarity): (c: RarityConfig)
    ensures c.screenShake <==> Level(r) >= Level(Rare)
    ensures c.specialEffect.None? <==> !c.screenShake
    ensures c.confettiCount == 0 <==> r == Common
  {
    match r
    case Common => RarityConfig("Обычный", "#a8d5ba", "rgba(168, 213, 186, 0.5)", 0, false, None)
    case Uncommon => RarityConfig("Необычный", "#2dd4bf", "rgba(45, 212, 191, 0.5)", 20, false, None)
    case Rare => RarityConfig("Редкий", "#60a5fa", "rgba(96, 165, 250, 0.6)", 50, true, Some("snowflakes"))
    case Epic => RarityConfig("Эпический", "#c084fc", "rgba(192, 132, 252, 0.7)", 100, true, Some("aurora"))
    case Legendary => RarityConfig("Легендарный", "#fbbf24", "rgba(251, 191, 36, 0.8)", 200, true, Some("golden_snow"))
    case Mythic => RarityConfig("Мифический", "#f43f5e", "rgba(244, 63, 94, 0.9)", 500, true, Some("christmas_miracle"))
    case Divine => RarityConfig("Божественный", "#ffffff", "rgba(255, 255, 255, 1.0)", 1000, true, Some("divine_blessing"))
  }

  /** The confetti count rises strictly with rarity. */
  lemma ConfettiStrictlyIncreasing(a: Rarity, b: Rarity)
    requires Level(a) < Level(b)
    ensures Config(a).confettiCount < Config(b).confettiCount
  {
  }
}
