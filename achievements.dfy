/**
 * The achievement table, the per-player filter, the lookup by id, and the
 * item-id lists the achievement checks use.
 */
module Achievements {
  import opened Wrappers
  import opened SpinTypes
  import opened Text
  import opened Seqs
  import Items

  /**
   * An achievement. `forPlayer` is "all" or the upper-case nickname of the
   * one player it is for; an absent `hidden` is false.
   */
  datatype Achievement = Achievement(
    id: string,
    name: string,
    description: string,
    requirement: string,
    emoji: string,
    forPlayer: string,
    hidden: bool)

  const ForAll: string := "all"

  const AchievementTable: seq<Achievement> := [
    Achievement("first_spin", "Первый раз", "Начало положено!", "Сделать первую крутку", "🎰", ForAll, false),
    Achievement("ten_spins", "Десяточка", "Разогрев окончен!", "Сделать 10 круток", "🔟", ForAll, false),
    Achievement("rainbow", "Радуга", "Полный спектр!", "Собрать предметы 5 разных редкостей", "🌈", ForAll, false),
    Achievement("divine_drop", "Божественный", "ТЫ СДЕЛАЛ ЭТО!", "Получить божественный предмет", "👑", ForAll, false),
    Achievement("coal_magnat", "Угольный Магнат", "Санта точно тебя запомнил", "Собрать 5 разных видов угля", "⛏️", "KLENKOZARASHI", false),
    Achievement("hell_tourist", "Адский Турист", "Добро пожаловать в ад!", "Попасть в адский режим", "😈", "KLENKOZARASHI", true),
    Achievement("misa_collector", "Миса-коллекционер", "Полный кошачий набор!", "Собрать всех Мис", "🐱", "KLENKOZARASHI", false),
    Achievement("unlucky", "Невезучая", "Ну хоть тепло будет...", "Получить 3 угля подряд", "😭", "KLENKOZARASHI", false),
    Achievement("unexpected_luck", "Неожиданно!", "Уля не поверит!", "Выбить legendary в первых 10 крутках", "🍀", "KLENKOZARASHI", false),
    Achievement("oksik_mania", "Оксик-мания", "Армия Оксиков готова!", "Собрать всех Оксиков", "🦌", "HOHOYKS", false),
    Achievement("infinity", "Бесконечность", "Время не властно над тобой", "Получить Крутку Бесконечности", "♾️", "HOHOYKS", true),
    Achievement("lucky", "Везунчик", "Срочно скинь Ане!", "Выбить epic или выше в первых 5 крутках", "⚡", "HOHOYKS", false)
  ]

  /** The number of general ("all") achievements, which open the table. */
  const GeneralCount: nat := 4

  /** Whether an achievement is shown to the player whose upper-case nickname is given. */
  function ShownTo(upperNickname: string): Achievement -> bool
  {
    (a: Achievement) => a.forPlayer == ForAll || a.forPlayer == upperNickname
  }

  /**
   * `getPlayerAchievements`: the table entries for everybody or for this
   * player (compared upper-case), in table order.
   */
  function GetPlayerAchievements(nickname: string): (r: seq<Achievement>)
    ensures forall i :: 0 <= i < |r| ==> r[i] in AchievementTable
    ensures forall i :: 0 <= i < |r| ==> r[i].forPlayer == ForAll || r[i].forPlayer == ToUpper(nickname)
    ensures forall i :: 0 <= i < |AchievementTable| &&
              (AchievementTable[i].forPlayer == ForAll || AchievementTable[i].forPlayer == ToUpper(nickname))
              ==> AchievementTable[i] in r
  {
    FilterMembers(AchievementTable, ShownTo(ToUpper(nickname)));
    Filter(AchievementTable, ShownTo(ToUpper(nickname)))
  }

  /** The table opens with the four general achievements and holds no other general one. */
  lemma TableShape()
    ensures |AchievementTable| == 12
    ensures forall i :: 0 <= i < GeneralCount ==> AchievementTable[i].forPlayer == ForAll
    ensures forall i :: GeneralCount <= i < |AchievementTable| ==>
              AchievementTable[i].forPlayer in {"KLENKOZARASHI", "HOHOYKS"}
  {
  }

  /**
   * Whatever the nickname, the result starts with the four general
   * achievements in table order, followed by the player's own ones.
   */
  lemma GeneralAchievementsComeFirst(nickname: string)
    ensures var r := GetPlayerAchievements(nickname);
      |r| >= GeneralCount && r[..GeneralCount] == AchievementTable[..GeneralCount]
    ensures GetPlayerAchievements(nickname) ==
      AchievementTable[..GeneralCount] + Filter(AchievementTable[GeneralCount..], ShownTo(ToUpper(nickname)))
  {
    var p := ShownTo(ToUpper(nickname));
    TableShape();
    forall i | 0 <= i < GeneralCount
      ensures p(AchievementTable[i])
    {
    }
    FilterKeepsPrefix(AchievementTable, GeneralCount, p);
  }

  /**
   * KLENKO is a valid login but no entry names it ("KLENKOZARASHI" is a
   * different string), so KLENKO sees the general achievements only.
   */
  lemma KlenkoSeesOnlyGeneral(nickname: string)
    requires ToUpper(nickname) == "KLENKO"
    ensures GetPlayerAchievements(nickname) == AchievementTable[..GeneralCount]
  {
    var p := ShownTo(ToUpper(nickname));
    GeneralAchievementsComeFirst(nickname);
    TableShape();
    var rest := AchievementTable[GeneralCount..];
    assert forall i :: 0 <= i < |rest| ==> !p(rest[i]) by {
      forall i | 0 <= i < |rest|
        ensures !p(rest[i])
      {
        assert rest[i] == AchievementTable[GeneralCount + i];
      }
    }
    FilterNone(rest, p);
  }

  /** Achievement ids are distinct, so an id names at most one entry. */
  lemma AchievementIdsDistinct()
    ensures forall i, j :: 0 <= i < |AchievementTable| && 0 <= j < |AchievementTable| && i != j ==>
              AchievementTable[i].id != AchievementTable[j].id
  {
    forall i, j | 0 <= i < |AchievementTable| && 0 <= j < |AchievementTable| && i != j
      ensures AchievementTable[i].id != AchievementTable[j].id
    {
      var a, b := AchievementTable[i].id, AchievementTable[j].id;
      assert |a| != |b| || a[0] != b[0];
    }
  }

  /** Whether an achievement has the given id. */
  function HasId(id: string): Achievement -> bool
  {
    (a: Achievement) => a.id == id
  }

  /** `getAchievementById`: the entry with that id, or None when no entry has it. */
  function GetAchievementById(id: string): (r: Option<Achievement>)
    ensures r.None? <==> forall i :: 0 <= i < |AchievementTable| ==> AchievementTable[i].id != id
    ensures r.Some? ==> r.value in AchievementTable && r.value.id == id
  {
    Find(AchievementTable, HasId(id))
  }

  /** Looking up the id of any entry gives back that very entry. */
  lemma LookupFindsEachEntry(i: int)
    requires 0 <= i < |AchievementTable|
    ensures GetAchievementById(AchievementTable[i].id) == Some(AchievementTable[i])
  {
    AchievementIdsDistinct();
    var r := GetAchievementById(AchievementTable[i].id);
    var k :| 0 <= k < |AchievementTable| && AchievementTable[k] == r.value && HasId(AchievementTable[i].id)(AchievementTable[k]);
  }

  /**
   * Exactly two achievements are hidden, hell_tourist and infinity (ids being
   * distinct, each names one entry).
   */
  lemma ExactlyTwoHidden()
    ensures forall i :: 0 <= i < |AchievementTable| ==>
              (AchievementTable[i].hidden <==> AchievementTable[i].id in {"hell_tourist", "infinity"})
  {
  }

  /** `COAL_ITEM_IDS`: the coal kinds the coal achievement counts. */
  const CoalItemIds: seq<string> := [
    "klenko_coal_piece",
    "klenko_coal_chunk",
    "klenko_coal_dust",
    "klenko_coal_shiny",
    "klenko_coal_gift"
  ]

  /** `MISA_ITEM_IDS`. */
  const MisaItemIds: seq<string> := [
    "klenko_misa_foil",
    "klenko_misa_propeller",
    "klenko_misa_new_year",
    "klenko_misa_pixel",
    "klenko_misa_winter_devil"
  ]

  /** `OKSIK_ITEM_IDS`. */
  const OksikItemIds: seq<string> := [
    "hohoyks_oksik_road",
    "hohoyks_oksik_crochet",
    "hohoyks_oksik_dance",
    "hohoyks_oksik_pixel",
    "hohoyks_oksik_sledge",
    "hohoyks_oksik_new_year"
  ]

  /** Where each coal id sits in KLENKO's normal pool. */
  const CoalPositions: seq<nat> := [0, 1, 2, 4, 7]

  /** Every coal id is the id of a common item of KLENKO's normal pool, at the position CoalPositions gives. */
  lemma CoalIdsAreCommonKlenkoItems()
    ensures |CoalPositions| == |CoalItemIds|
    ensures forall i :: 0 <= i < |CoalItemIds| ==>
              && CoalPositions[i] < |Items.KlenkoItems|
              && Items.KlenkoItems[CoalPositions[i]].id == CoalItemIds[i]
              && Items.KlenkoItems[CoalPositions[i]].rarity == Common
  {
    forall i | 0 <= i < |CoalItemIds|
      ensures CoalPositions[i] < |Items.KlenkoItems|
      ensures Items.KlenkoItems[CoalPositions[i]].id == CoalItemIds[i]
      ensures Items.KlenkoItems[CoalPositions[i]].rarity == Common
    {
      if i == 0 {
        assert Items.KlenkoItems[0].id == "klenko_coal_piece";
      } else if i == 1 {
        assert Items.KlenkoItems[1].id == "klenko_coal_chunk";
      } else if i == 2 {
        assert Items.KlenkoItems[2].id == "klenko_coal_dust";
      } else if i == 3 {
        assert Items.KlenkoItems[4].id == "klenko_coal_shiny";
      } else {
        assert Items.KlenkoItems[7].id == "klenko_coal_gift";
      }
    }
  }
}
