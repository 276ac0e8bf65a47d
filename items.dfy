/**
 * The item catalog: one fixed pool per player, each ordered common first and
 * divine last, plus the "hellish" KLENKO pool that mirrors the normal one
 * position for position.
 */
module Items {
  import opened Wrappers
  import opened SpinTypes
  import opened Text
  import opened Seqs

  datatype ColorPair = ColorPair(color: string, glowColor: string)

  /** The per-rarity colors `createItem` keeps in its own table. */
  function RarityColors(r: Rarity): ColorPair
  {
    match r
    case Common => ColorPair("#a8d5ba", "rgba(168, 213, 186, 0.5)")
    case Uncommon => ColorPair("#2dd4bf", "rgba(45, 212, 191, 0.5)")
    case Rare => ColorPair("#60a5fa", "rgba(96, 165, 250, 0.6)")
    case Epic => ColorPair("#c084fc", "rgba(192, 132, 252, 0.7)")
    case Legendary => ColorPair("#fbbf24", "rgba(251, 191, 36, 0.8)")
    case Mythic => ColorPair("#f43f5e", "rgba(244, 63, 94, 0.9)")
    case Divine => ColorPair("#ffffff", "rgba(255, 255, 255, 1.0)")
  }

  /**
   * Builds an item: the identity fields are copied, the emoji becomes the
   * image, and the colors are those RARITY_CONFIG gives the rarity.
   */
  function CreateItem(id: string, name: string, description: string, rarity: Rarity, emoji: string): (it: SpinItem)
    ensures it.id == id && it.name == name && it.description == description
    ensures it.rarity == rarity && it.image == emoji
    ensures it.color == Config(rarity).color && it.glowColor == Config(rarity).glowColor
  {
    var colors := RarityColors(rarity);
    SpinItem(id, name, description, rarity, emoji, colors.color, colors.glowColor)
  }

  /** KLENKO's pool: 8 common, 4 uncommon, 3 rare, 2 epic, 2 legendary, 1 mythic. */
  const KlenkoItems: seq<SpinItem> := [
    CreateItem("klenko_coal_piece", "Кусочек Угля", "Для непослушных детей", Common, "⬛"),
    CreateItem("klenko_coal_chunk", "Угольный Брикет", "Крупный и чёрный", Common, "🪨"),
    CreateItem("klenko_coal_dust", "Угольная Пыль", "Пачкает руки", Common, "🖤"),
    CreateItem("klenko_coal_small", "Мелкий Уголёк", "Совсем крошечный", Common, "◾"),
    CreateItem("klenko_coal_shiny", "Блестящий Уголь", "Почти как алмаз... но нет", Common, "💎"),
    CreateItem("klenko_coal_old", "Старый Уголь", "Из прошлого года", Common, "⚫"),
    CreateItem("klenko_coal_warm", "Тёплый Уголь", "Ещё не остыл", Common, "🔥"),
    CreateItem("klenko_coal_gift", "Уголь в Обёртке", "Подарок? Сюрприз!", Common, "🎁"),
    CreateItem("klenko_christmas_ball", "Ёлочный Шар", "Сверкает огнями гирлянды", Uncommon, "🔴"),
    CreateItem("klenko_gift_box", "Подарочная Коробка", "Что же внутри?", Uncommon, "🎁"),
    CreateItem("klenko_wreath", "Рождественский Венок", "Украшен красными ягодами", Uncommon, "💚"),
    CreateItem("klenko_star_cookie", "Звёздное Печенье", "Покрыто глазурью", Uncommon, "⭐"),
    CreateItem("klenko_snow_globe", "Снежный Шар", "Внутри миниатюрная зима", Rare, "🔮"),
    CreateItem("klenko_ice_skates", "Коньки", "Для катания по льду", Rare, "⛸️"),
    CreateItem("klenko_nutcracker", "Щелкунчик", "Деревянный солдатик", Rare, "🪖"),
    CreateItem("klenko_magic_sleigh", "Волшебные Сани", "Летят по небу!", Epic, "🛷"),
    CreateItem("klenko_aurora_bottle", "Северное Сияние в Бутылке", "Переливается всеми цветами", Epic, "🌌"),
    CreateItem("klenko_santas_hat", "Шапка Деда Мороза", "Настоящая! Тёплая и волшебная", Legendary, "🎅"),
    CreateItem("klenko_infinite_gift", "Бесконечный Подарок", "Каждый раз новый сюрприз", Legendary, "🎁"),
    CreateItem("klenko_santas_bag", "Мешок Деда Мороза", "Вмещает все подарки мира", Mythic, "🎒")
  ]

  const KlenkoDivine: seq<SpinItem> := [
    CreateItem("klenko_minecraft_key", "🎁 Ключ Minecraft для KLENKO", "Особый подарок от создателя! Лицензия Minecraft Java Edition", Divine, "🔑")
  ]

  /** The hellish KLENKO pool, used instead of KlenkoItems once hell mode is on. */
  const KlenkoHellishItems: seq<SpinItem> := [
    CreateItem("klenko_hell_coal_piece", "🔥 Адский Уголь", "Горит вечным пламенем", Common, "🔥"),
    CreateItem("klenko_hell_coal_chunk", "🔥 Пылающий Брикет", "Обжигает душу", Common, "💀"),
    CreateItem("klenko_hell_coal_dust", "🔥 Пепел Проклятых", "Остатки грешников", Common, "☠️"),
    CreateItem("klenko_hell_coal_small", "🔥 Искра Ада", "Маленькая, но опасная", Common, "⚡"),
    CreateItem("klenko_hell_coal_shiny", "🔥 Кровавый Алмаз", "Пропитан страданиями", Common, "💎"),
    CreateItem("klenko_hell_coal_old", "🔥 Древний Пепел", "Из первого круга ада", Common, "🌑"),
    CreateItem("klenko_hell_coal_warm", "🔥 Жар Преисподней", "Никогда не остынет", Common, "🌋"),
    CreateItem("klenko_hell_coal_gift", "🔥 Проклятый Дар", "Подарок от самого дьявола", Common, "👹"),
    CreateItem("klenko_hell_christmas_ball", "🔥 Шар Проклятий", "Отражает твои грехи", Uncommon, "🔴"),
    CreateItem("klenko_hell_gift_box", "🔥 Ящик Пандоры", "Лучше не открывать", Uncommon, "📦"),
    CreateItem("klenko_hell_wreath", "🔥 Венок Шипов", "Колючий и опасный", Uncommon, "🥀"),
    CreateItem("klenko_hell_star_cookie", "🔥 Печенье Отчаяния", "Горькое на вкус", Uncommon, "🍪"),
    CreateItem("klenko_hell_snow_globe", "🔥 Шар Кошмаров", "Внутри вечная тьма", Rare, "🌑"),
    CreateItem("klenko_hell_ice_skates", "🔥 Коньки Страданий", "Режут по льду ада", Rare, "⛸️"),
    CreateItem("klenko_hell_nutcracker", "🔥 Костолом", "Ломает не только орехи", Rare, "💀"),
    CreateItem("klenko_hell_magic_sleigh", "🔥 Колесница Ада", "Везет прямо в преисподнюю", Epic, "🛷"),
    CreateItem("klenko_hell_aurora_bottle", "🔥 Кровавое Сияние", "Северное сияние из ада", Epic, "🩸"),
    CreateItem("klenko_hell_santas_hat", "🔥 Шапка Крампуса", "Носит демон Рождества", Legendary, "👹"),
    CreateItem("klenko_hell_infinite_gift", "🔥 Бесконечное Проклятие", "Дарит только страдания", Legendary, "💀"),
    CreateItem("klenko_hell_santas_bag", "🔥 Мешок Душ", "Вмещает души грешников", Mythic, "👻")
  ]

  const KlenkoHellishDivine: seq<SpinItem> := [
    CreateItem("klenko_hell_minecraft_key", "🔥 Проклятый Ключ Minecraft", "Ключ, выкованный в аду! Лицензия Minecraft Java Edition... но какой ценой?", Divine, "🗝️")
  ]

  /** HOHOYKS's pool: 5 common, 5 uncommon, 4 rare, 3 epic, 2 legendary, 1 mythic. */
  const HohoyksItems: seq<SpinItem> := [
    CreateItem("hohoyks_snowflake", "Снежинка", "Уникальная и прекрасная", Common, "❄️"),
    CreateItem("hohoyks_candy_cane", "Леденец", "Мятный и сладкий", Common, "🍬"),
    CreateItem("hohoyks_mittens", "Варежки", "Тёплые и уютные", Common, "🧤"),
    CreateItem("hohoyks_ornament", "Ёлочная игрушка", "Блестящая и яркая", Common, "🎀"),
    CreateItem("hohoyks_stocking", "Рождественский носок", "Для подарков", Common, "🧦"),
    CreateItem("hohoyks_snowman_hat", "Шляпа Снеговика", "Немного потрёпанная", Uncommon, "🎩"),
    CreateItem("hohoyks_jingle_bells", "Бубенцы", "Дзинь-дзинь-дзинь!", Uncommon, "🎶"),
    CreateItem("hohoyks_christmas_lights", "Гирлянда", "Мигает разными цветами", Uncommon, "✨"),
    CreateItem("hohoyks_eggnog", "Гоголь-Моголь", "Праздничный напиток", Uncommon, "🥛"),
    CreateItem("hohoyks_gingerbread", "Пряничный человечек", "Вкусный и ароматный", Uncommon, "🍪"),
    CreateItem("hohoyks_reindeer_plush", "Плюшевый Олень", "Мягкий и пушистый", Rare, "🦌"),
    CreateItem("hohoyks_christmas_sweater", "Новогодний Свитер", "С оленями и ёлками", Rare, "🧥"),
    CreateItem("hohoyks_music_box", "Музыкальная Шкатулка", "Играет 'Jingle Bells'", Rare, "🎵"),
    CreateItem("hohoyks_crystal_star", "Хрустальная Звезда", "Для верхушки ёлки", Rare, "💫"),
    CreateItem("hohoyks_eternal_wreath", "Вечнозелёный Венок", "Никогда не увядает", Epic, "🌿"),
    CreateItem("hohoyks_golden_bell", "Золотой Колокол", "Исполняет желания при звоне", Epic, "🔔"),
    CreateItem("hohoyks_frost_wand", "Посох Мороза", "Создаёт снежинки", Epic, "🪄"),
    CreateItem("hohoyks_reindeer_antlers", "Рога Рудольфа", "Светятся в темноте!", Legendary, "✨"),
    CreateItem("hohoyks_golden_tree", "Золотая Ёлка", "Сияет ярче солнца", Legendary, "🌟"),
    CreateItem("hohoyks_time_crystal", "Кристалл Времени", "Останавливает полночь навечно", Mythic, "💎")
  ]

  /** The infinity spin: defined here but part of no pool. */
  const HohoyksSecretLegendary: SpinItem :=
    CreateItem("hohoyks_infinity_spin", "⚡ Крутка Бесконечности ⚡", "Легендарный артефакт из альтернативной вселенной! Дарует бесконечные крутки!", Legendary, "♾️")

  const HohoyksDivine: seq<SpinItem> := [
    CreateItem("hohoyks_minecraft_key", "🎁 Ключ Minecraft для HOHOYKS", "Особый подарок от создателя! Лицензия Minecraft Java Edition", Divine, "🔑")
  ]

  const KlenkoAllItems: seq<SpinItem> := KlenkoItems + KlenkoDivine
  const HohoyksAllItems: seq<SpinItem> := HohoyksItems + HohoyksDivine
  const KlenkoHellishAllItems: seq<SpinItem> := KlenkoHellishItems + KlenkoHellishDivine

  /** Every item `getItemById` can find: the two normal pools, nothing hellish. */
  const AllItems: seq<SpinItem> := KlenkoAllItems + HohoyksAllItems

  /** A pool whose last item is its only divine one. */
  predicate DivineLastOnly(pool: seq<SpinItem>)
  {
    |pool| > 0 && pool[|pool| - 1].rarity == Divine
    && forall i :: 0 <= i < |pool| - 1 ==> pool[i].rarity != Divine
  }

  /** The upper-cased nicknames that own a pool. */
  predicate HasPool(upperNickname: string)
  {
    upperNickname == "KLENKO" || upperNickname == "HOHOYKS"
  }

  lemma KlenkoPoolEndsInDivine()
    ensures DivineLastOnly(KlenkoAllItems)
  {
  }

  lemma KlenkoHellishPoolEndsInDivine()
    ensures DivineLastOnly(KlenkoHellishAllItems)
  {
  }

  lemma HohoyksPoolEndsInDivine()
    ensures DivineLastOnly(HohoyksAllItems)
  {
  }

  /**
   * `getPlayerItems`: the pool for a nickname, compared upper-cased. Only KLENKO
   * and HOHOYKS own a pool (any other nickname gets the empty one), and a
   * non-empty pool ends in its one divine item.
   */
  function GetPlayerItems(nickname: string, hellMode: bool := false): (pool: seq<SpinItem>)
    ensures pool == [] <==> !HasPool(ToUpper(nickname))
    ensures pool != [] ==> DivineLastOnly(pool)
  {
    var upperNickname := ToUpper(nickname);
    if upperNickname == "KLENKO" then
      if hellMode then
        KlenkoHellishPoolEndsInDivine();
        KlenkoHellishItems + KlenkoHellishDivine
      else
        KlenkoPoolEndsInDivine();
        KlenkoAllItems
    else if upperNickname == "HOHOYKS" then
      HohoyksPoolEndsInDivine();
      HohoyksAllItems
    else
      []
  }

  /** Which pool each owner gets: hell mode switches KLENKO's pool and leaves HOHOYKS's alone. */
  lemma PoolOfEachOwner(nickname: string, hellMode: bool)
    ensures ToUpper(nickname) == "KLENKO" ==>
      GetPlayerItems(nickname, hellMode) == if hellMode then KlenkoHellishAllItems else KlenkoAllItems
    ensures ToUpper(nickname) == "HOHOYKS" ==> GetPlayerItems(nickname, hellMode) == HohoyksAllItems
  {
  }

  /** Hell mode matters only for KLENKO. */
  lemma HellModeOnlyAffectsKlenko(nickname: string)
    requires ToUpper(nickname) != "KLENKO"
    ensures GetPlayerItems(nickname, true) == GetPlayerItems(nickname, false)
  {
  }

  /**
   * The hellish KLENKO pool mirrors the normal one: both hold 20 items, and the
   * items at the same position have the same rarity.
   */
  lemma HellishPoolMirrorsNormal()
    ensures |KlenkoItems| == 20 && |KlenkoHellishItems| == 20
    ensures forall i :: 0 <= i < 20 ==> KlenkoHellishItems[i].rarity == KlenkoItems[i].rarity
    ensures KlenkoHellishDivine[0].rarity == KlenkoDivine[0].rarity
  {
  }

  /** The item test `item.rarity === rarity` used by the rarity filters. */
  function OfRarity(rarity: Rarity): SpinItem -> bool
  {
    (item: SpinItem) => item.rarity == rarity
  }

  /** `getItemsByRarity`: exactly the items of the pool with that rarity, in pool order. */
  function GetItemsByRarity(rarity: Rarity, nickname: string, hellMode: bool := false): (items: seq<SpinItem>)
    ensures forall i :: 0 <= i < |items| ==> items[i].rarity == rarity && items[i] in GetPlayerItems(nickname, hellMode)
    ensures forall it :: it in GetPlayerItems(nickname, hellMode) && it.rarity == rarity ==> it in items
    ensures items == Filter(GetPlayerItems(nickname, hellMode), OfRarity(rarity))
  {
    FilterMembers(GetPlayerItems(nickname, hellMode), OfRarity(rarity));
    Filter(GetPlayerItems(nickname, hellMode), OfRarity(rarity))
  }

  /** In a pool whose only divine item is the last, the divine filter yields just that item. */
  lemma {:induction false} DivineFilterOfPool(pool: seq<SpinItem>)
    requires DivineLastOnly(pool)
    ensures Filter(pool, OfRarity(Divine)) == [pool[|pool| - 1]]
  {
    var front, last := pool[..|pool| - 1], pool[|pool| - 1];
    assert pool == front + [last];
    FilterAppend(front, [last], OfRarity(Divine));
    FilterNone(front, OfRarity(Divine));
    assert Filter([last], OfRarity(Divine)) == [last] by {
      assert [last][1..] == [];
    }
  }

  /** Asking for the divine items of a player yields exactly the last item of the pool. */
  lemma DivineQueryIsLastItem(nickname: string, hellMode: bool)
    requires GetPlayerItems(nickname, hellMode) != []
    ensures var pool := GetPlayerItems(nickname, hellMode);
            GetItemsByRarity(Divine, nickname, hellMode) == [pool[|pool| - 1]]
  {
    DivineFilterOfPool(GetPlayerItems(nickname, hellMode));
  }

  /** `getItemById`: the first item of AllItems with that id, or None when there is none. */
  function GetItemById(id: string): (r: Option<SpinItem>)
    ensures r.Some? ==> r.value in AllItems && r.value.id == id
    ensures r.None? <==> forall i :: 0 <= i < |AllItems| ==> AllItems[i].id != id
  {
    Find(AllItems, (item: SpinItem) => item.id == id)
  }

  /** The item found is the first of AllItems with that id. */
  lemma GetItemByIdFindsFirst(id: string)
    ensures var r := GetItemById(id);
      r.Some? ==> exists i :: 0 <= i < |AllItems| && AllItems[i] == r.value && r.value.id == id
                              && forall j :: 0 <= j < i ==> AllItems[j].id != id
  {
  }

  /** The id of every KLENKO item that getItemById searches differs from "klenko_hell_..." at position 7. */
  lemma KlenkoIdsNotHellish()
    ensures forall i :: 0 <= i < |KlenkoAllItems| ==> |KlenkoAllItems[i].id| > 8 && KlenkoAllItems[i].id[7] != 'h'
  {
  }

  /** Every HOHOYKS id starts with 'h' and differs from "hohoyks_infinity_spin" at position 8. */
  lemma HohoyksIdsShape()
    ensures forall i :: 0 <= i < |HohoyksAllItems| ==>
      |HohoyksAllItems[i].id| > 8 && HohoyksAllItems[i].id[0] == 'h' && HohoyksAllItems[i].id[8] != 'i'
  {
  }

  /** No id that getItemById can find starts with "klenko_hell_". */
  lemma NoHellishIdInAllItems()
    ensures forall i :: 0 <= i < |AllItems| ==> !("klenko_hell_" <= AllItems[i].id)
  {
    KlenkoIdsNotHellish();
    HohoyksIdsShape();
    forall i | 0 <= i < |AllItems|
      ensures !("klenko_hell_" <= AllItems[i].id)
    {
      if i < |KlenkoAllItems| {
        assert AllItems[i] == KlenkoAllItems[i];
      } else {
        assert AllItems[i] == HohoyksAllItems[i - |KlenkoAllItems|];
      }
    }
  }

  /** Hellish ids are unknown to getItemById, even though hellish items can be won. */
  lemma HellishIdsNotFound(id: string)
    requires "klenko_hell_" <= id
    ensures GetItemById(id).None?
  {
    NoHellishIdInAllItems();
  }

  /** The infinity spin is unknown to getItemById too. */
  lemma InfinitySpinNotFound()
    ensures GetItemById(HohoyksSecretLegendary.id).None?
  {
    var id := HohoyksSecretLegendary.id;
    assert id == "hohoyks_infinity_spin" && id[0] == 'h' && id[8] == 'i';
    KlenkoIdsNotHellish();
    HohoyksIdsShape();
    forall i | 0 <= i < |AllItems|
      ensures AllItems[i].id != id
    {
      if i < |KlenkoAllItems| {
        assert AllItems[i] == KlenkoAllItems[i];
        assert AllItems[i].id[0] == 'k';
      } else {
        assert AllItems[i] == HohoyksAllItems[i - |KlenkoAllItems|];
      }
    }
  }
}
