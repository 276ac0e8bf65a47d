# Gift-spin game: a Dafny model of its data and state logic

This project models the data and state logic of a gift-spin ("gacha") game:
- the seven rarities and their presentation table;
- the two players' item pools, including KLENKO's "hellish" pool;
- the construction of a scripted reel around a winning item, from ten fixed templates per player;
- the case-insensitive player registry;
- the game store, a session state machine whose actions are login, logout, prepare, start and complete a spin, close the victory screen, and reset;
- the achievement table;
- what the inventory and collection panels derive from a player's results;
- the login form's submit logic.

Each source file becomes one module:

| module | source |
|---|---|
| `SpinTypes` | types/spin.ts |
| `Items` | data/items.ts |
| `Players` | data/players.ts |
| `Store` | stores/gameStore.ts |
| `Achievements` | data/achievements.ts |
| `InventoryView` | components/spin/Inventory.tsx |
| `CollectionView` | components/spin/Collection.tsx |
| `LoginScreen` | components/LoginScreen.tsx |

`RarityOrder` holds the display order `RARITY_ORDER`, divine first. Both panels declare it, and both sort their cards by it with `Array.prototype.sort`. That sort is stable, so `RarityOrder` defines the stable sort by display order as a function, `ByDisplayOrder`. It proves that function sorted, a permutation of its input, stable, and the only sequence with those properties. The in-place insertion sort over an `array` is then proved equal to it. `Text` holds `toUpperCase`, `trim` and the O-to-zero rewrite. `Seqs` holds `filter`, `find`, `indexOf` and `new Set`.

The game store is a class whose methods update its fields. The login form is a class too. The reel builder and the collection's chance map are loops. Everything else is functions and lemmas.

Randomness, the clock and the collaborators whose source is not part of this model are parameters:
- the filler pools `COMMON_ITEMS` … `MYTHIC_ITEMS` are a `FillerPools` value;
- each `Math.random` draw is a `FillerPick` (filler branch and index) or a window offset;
- `generateRandomSpin` is a function value taking an explicit seed, whose answer may be None (null);
- `hasSpinsRemaining` is an uninterpreted predicate;
- `getFormattedChances` is a list of entries whose chance is opaque.

## Model

| member | source | states |
|---|---|---|
| SpinTypes.AllRaritiesListsEachOnce | types/spin.ts:1 | The seven rarities, listed in ascending order, each exactly once |
| SpinTypes.Config | types/spin.ts:44-140 | RARITY_CONFIG is total. The screen shakes exactly from rare upward. The special effect is null exactly when there is no shake. Only common has zero confetti |
| SpinTypes.ConfettiStrictlyIncreasing | types/spin.ts:64-136 | The confetti count rises strictly with rarity |
| Text.ToUpper | data/players.ts:153 | `toUpperCase` keeps the length and upper-cases each character: a-z to A-Z, dotless i to I, long s to S. No lower-case ASCII letter is left |
| Text.ToUpperIdempotent | data/players.ts:152-160 | Upper-casing twice equals upper-casing once |
| Text.Trim | components/LoginScreen.tsx:53 | `trim` returns a slice. Everything outside the slice is whitespace. The slice neither starts nor ends with whitespace |
| Text.TrimAllBlank | components/LoginScreen.tsx:53-55 | An all-whitespace nickname trims to the empty string |
| Text.ReplaceOWithZero | components/LoginScreen.tsx:311 | Every O and o becomes 0, every other character is kept, and no O/o remains |
| Items.CreateItem | data/items.ts:3-29 | Copies id, name, description and rarity. The emoji becomes the image. Both colors equal RARITY_CONFIG's for the rarity |
| Items.GetPlayerItems | data/items.ts:174-186 | The pool is empty exactly for a nickname whose upper-case form is neither KLENKO nor HOHOYKS. A non-empty pool has exactly one divine item, in last place |
| Items.PoolOfEachOwner | data/items.ts:174-186 | KLENKO gets the hellish pool in hell mode and the normal pool otherwise. HOHOYKS always gets its own pool |
| Items.HellModeOnlyAffectsKlenko | data/items.ts:176-184 | For any nickname other than KLENKO, the hell-mode flag changes nothing |
| Items.HellishPoolMirrorsNormal | data/items.ts:34-113 | The normal and the hellish KLENKO pools have 20 items each. Items at the same index share a rarity, and so do the two divine items |
| Items.GetItemsByRarity | data/items.ts:189-192 | Returns exactly the pool items of that rarity, in pool order |
| Items.DivineQueryIsLastItem | data/items.ts:189-192 | For a non-empty pool, asking for the divine items yields just the pool's last item |
| Items.GetItemById | data/items.ts:195-197 | Returns an item of ALL_ITEMS with that id, or None exactly when no item of ALL_ITEMS has it |
| Items.GetItemByIdFindsFirst | data/items.ts:195-197 | The item returned is the first of ALL_ITEMS with that id |
| Items.NoHellishIdInAllItems | data/items.ts:167-171 | No id in ALL_ITEMS starts with "klenko_hell_" |
| Items.HellishIdsNotFound | data/items.ts:195-197 | Every hellish id yields None from getItemById |
| Items.InfinitySpinNotFound | data/items.ts:153-154 | The secret infinity-spin item's id yields None from getItemById |
| Players.Filler | data/players.ts:24-38 | A background item comes from the common, uncommon, rare, epic or legendary filler pool, never the mythic one |
| Players.SpinItems | data/players.ts:12-43 | The reel has `totalItems` slots (none if negative). The winner is at the winning position when that is a slot. Every other slot holds the background item its draw picks |
| Players.GenerateSpinItems | data/players.ts:12-43 | The push loop builds exactly the reel SpinItems describes |
| Players.CreateSpinTemplate | data/players.ts:70-78 | The template keeps the winner, duration and easing; the defaults are 5000 and easeOut |
| Players.CreateSpinFromTemplate | data/players.ts:53-67 | A legendary or mythic winner gets 200 items with the winner at 150..169; any other winner gets 50 items with the winner at 35..44. The winner is at the winning index, the other slots hold background items, and duration and easing are copied |
| Players.TemplatesFor | data/players.ts:84-112 | KLENKO, in any case, gets KLENKO's templates; every other nickname gets HOHOYKS's |
| Players.Resolve | data/players.ts:84-112 | A template row gives the item its filler pool holds at that index, with that duration and easeOut |
| Players.GetSpinCount | data/players.ts:121-124 | The template count is the table's length, which is 10 for every nickname |
| Players.GenerateSpin | data/players.ts:115-119 | Null exactly when the index is negative or past the template count. Otherwise the reel's winner is the template's item, the duration is the template's and the easing is easeOut. A legendary or mythic winner gets a 200-item reel won at 150..169; any other winner gets a 50-item reel won at 35..44 |
| Players.IsValidNickname | data/players.ts:152-154 | True exactly when the upper-cased nickname is KLENKO or HOHOYKS |
| Players.GetPlayerInfo | data/players.ts:157-160 | Defined exactly for the valid nicknames; the entry carries the upper-cased nickname |
| Players.LookupIgnoresCase | data/players.ts:152-160 | Validation and lookup give the same answer for a nickname and its upper-cased form |
| Players.LongSNameIsHohoyks | data/players.ts:152-160 | A nickname spelt with a long s upper-cases to HOHOYKS, so it is valid and finds HOHOYKS's entry |
| Store.CollectedIds | stores/gameStore.ts:92 | The item id of each inventory entry, in inventory order |
| Store.FreshPlayer | stores/gameStore.ts:52-60 | A new player copies the registry entry, with index 0 and an empty inventory |
| Store.GameStore.constructor | stores/gameStore.ts:39-44 | All six state fields start at their initial values; the inventory/index invariant holds |
| Store.GameStore.Rehydrated | stores/gameStore.ts:176-188 | Only the authentication flag and the player are restored. When a player is restored, the spin is the generator's answer, which may be null, for the inventory's item ids |
| Store.GameStore.Snapshot | stores/gameStore.ts:176-179 | The persisted part is exactly the authentication flag and the current player |
| Store.GameStore.HasMoreSpins | stores/gameStore.ts:167-172 | False without a player; otherwise what hasSpinsRemaining says for the player's index |
| Store.GameStore.Login | stores/gameStore.ts:47-66 | An unknown nickname returns false and changes nothing. A known one installs a fresh player and, as the spin, the generator's answer (possibly null) for no collected ids. This restores the invariant and leaves isSpinning, lastResult and showVictoryScreen untouched |
| Store.GameStore.Logout | stores/gameStore.ts:69-78 | Every state field returns to its initial value |
| Store.GameStore.PrepareSpin | stores/gameStore.ts:81-95 | A no-op without a player, with a spin already prepared, or with no spins left. Otherwise the spin becomes the generator's answer, possibly null, for the collected ids. It never replaces an existing spin |
| Store.GameStore.StartSpin | stores/gameStore.ts:98-106 | A no-op unless there is a player, a prepared spin and spins remaining. Otherwise isSpinning becomes true and the victory screen is hidden |
| Store.GameStore.CompleteSpin | stores/gameStore.ts:109-134 | Appends the result, keeping earlier entries, and advances the index by one, which preserves the invariant. The spin stops and the victory screen shows the result. When no spins remain at the new index, the next spin is null. Otherwise it is the generator's answer, possibly null, for the grown inventory's ids. Without a player, a no-op |
| Store.GameStore.CloseVictoryScreen | stores/gameStore.ts:137-139 | Hides the victory screen and clears the last result; nothing else changes |
| Store.GameStore.ResetPlayer | stores/gameStore.ts:142-164 | A registered player starts over with index 0, an empty inventory and the generator's answer for no collected ids, and the spin flags are cleared. Otherwise a no-op. Authentication is untouched |
| Store.PlayRound | stores/gameStore.ts:98-134 | Starting then completing a spin grows the inventory by exactly that result and the index by one, keeping them in step |
| Achievements.GetPlayerAchievements | data/achievements.ts:122-127 | Every entry returned is from the table and is for "all" or for the upper-cased nickname; every such table entry is returned |
| Achievements.TableShape | data/achievements.ts:15-119 | The table has 12 entries. The first four are for "all"; the rest are for KLENKOZARASHI or HOHOYKS |
| Achievements.GeneralAchievementsComeFirst | data/achievements.ts:122-127 | For any nickname, the result starts with the four general achievements in table order, followed by the filtered rest |
| Achievements.KlenkoSeesOnlyGeneral | data/achievements.ts:122-127 | KLENKO gets exactly the four general achievements |
| Achievements.AchievementIdsDistinct | data/achievements.ts:15-119 | No two entries share an id |
| Achievements.GetAchievementById | data/achievements.ts:130-132 | Returns the entry with that id, or None exactly when no entry has it |
| Achievements.LookupFindsEachEntry | data/achievements.ts:130-132 | Looking up any entry's id returns that entry |
| Achievements.ExactlyTwoHidden | data/achievements.ts:66-109 | An entry is hidden exactly when its id is hell_tourist or infinity |
| Achievements.CoalIdsAreCommonKlenkoItems | data/achievements.ts:135-141 | Each coal id is the id of a common item of KLENKO's normal pool |
| RarityOrder.DisplayIndexIsIndexOf | components/spin/Inventory.tsx:208-209 | The comparator's `RARITY_ORDER.indexOf` is the display index, and it is never -1 |
| RarityOrder.DisplayIndexReversesLevel | components/spin/Collection.tsx:19-27 | The display order is the rarity ladder read from divine down |
| RarityOrder.ByDisplayOrderIsSorted | components/spin/Inventory.tsx:206-211 | The reference stable sort is in non-decreasing display index |
| RarityOrder.ByDisplayOrderIsPermutation | components/spin/Inventory.tsx:206-211 | The reference stable sort is a permutation of its input |
| RarityOrder.ByDisplayOrderIsStable | components/spin/Inventory.tsx:206-211 | Each rarity's elements keep their input order |
| RarityOrder.StableSortIsUnique | components/spin/Inventory.tsx:206-211 | A sorted sequence with the same groups as s is the reference order of s |
| RarityOrder.InsertLast | components/spin/Inventory.tsx:206-211 | One insertion pass extends the sorted prefix by one and keeps every group |
| RarityOrder.SortByDisplayOrder | components/spin/Inventory.tsx:206-211 | The in-place sort leaves the array sorted and stable, equal to the reference order of its old contents, and a permutation of them |
| RarityOrder.SortedCopy | components/spin/Collection.tsx:272-277 | A new array holding the cards in the reference order: sorted and a permutation of them |
| InventoryView.Group | components/spin/Inventory.tsx:39-44 | A rarity's group holds exactly the results of that rarity |
| InventoryView.GroupGrows | components/spin/Inventory.tsx:41-42 | Taking one more result appends it to its own rarity's group and to no other |
| InventoryView.GroupByRarity | components/spin/Inventory.tsx:39-44 | The reduce builds the grouping: a rarity is a key exactly when it has results, and its list is its group in original order |
| InventoryView.FilteredItems | components/spin/Inventory.tsx:47-50 | "all" gives the results themselves; one rarity gives exactly the results of that rarity |
| InventoryView.RarityCounts | components/spin/Inventory.tsx:53-57 | Seven entries, in RARITY_ORDER, each with its rarity's config |
| InventoryView.RarityCountIsGroupSize | components/spin/Inventory.tsx:55 | Over the grouping, each count is the size of its rarity's group, 0 for an absent rarity |
| InventoryView.RarityCountsSumToLength | components/spin/Inventory.tsx:53-57 | Over the grouping, the seven counts add up to the number of results |
| InventoryView.GetHellRarityName | components/spin/Inventory.tsx:60-72 | RARITY_CONFIG's name outside hell mode, the fixed hell name in it |
| InventoryView.RarityNamesDistinct | components/spin/Inventory.tsx:60-72 | In either mode, different rarities get different names |
| InventoryView.DisplayedItems | components/spin/Inventory.tsx:206-211 | The shown list is the filtered results sorted stably by display order. For "all" it is the caller's own array, sorted in place; for one rarity it is a new array and the caller's is untouched |
| CollectionView.ChanceMap | components/spin/Collection.tsx:134-138 | A rarity is a key exactly when some entry has it, and its value comes from the last such entry |
| CollectionView.UnlockedIds | components/spin/Collection.tsx:144 | The set of the inventory's item ids |
| CollectionView.FilteredItems | components/spin/Collection.tsx:147-150 | "all" gives the whole pool; one rarity gives exactly the pool items of that rarity, in pool order |
| CollectionView.UnlockedItems | components/spin/Collection.tsx:153-155 | Each card is a filtered card whose id has been won; the cards are exactly those filtered cards, in pool order |
| CollectionView.LockedItems | components/spin/Collection.tsx:156-158 | Each card is a filtered card whose id has not been won; the cards are exactly those filtered cards, in pool order |
| CollectionView.UnlockedLockedPartition | components/spin/Collection.tsx:153-158 | Unlocked and locked are disjoint, and together they are the filtered cards, multiplicities included |
| CollectionView.RarityStats | components/spin/Collection.tsx:161-172 | Seven entries, in RARITY_ORDER, each with its rarity's config |
| CollectionView.UnlockedAtMostTotal | components/spin/Collection.tsx:161-172 | In each rarity, at most all of its items are unlocked |
| CollectionView.TotalsSumToPoolSize | components/spin/Collection.tsx:161-174 | The seven totals add up to the pool size |
| CollectionView.FloorPercent | components/spin/Collection.tsx:175-176 | `Math.floor((part / whole) * 100)` in exact arithmetic: NaN for 0/0, Infinity for n/0 with n > 0, otherwise the floor of 100·part/whole |
| CollectionView.CompletionPercent | components/spin/Collection.tsx:174-176 | With a non-empty pool, the percentage is the floor of 100 times the distinct won ids over the pool size. With an empty pool it is NaN exactly when nothing was won |
| CollectionView.CompletionAtMostHundred | components/spin/Collection.tsx:174-176 | When every won id is in the pool, the percentage is at most 100 |
| CollectionView.CompletionCountsIdsOutsidePool | components/spin/Collection.tsx:144-176 | As written: a one-card pool whose card was not won, with another item won, shows 100% and no unlocked card |
| CollectionView.PoolCompletionPercent | components/spin/Collection.tsx:174-176 | Corrected: counting only won ids that are in the pool, the percentage is between 0 and 100 for any non-empty pool |
| CollectionView.PoolCompletionAgreesOnPoolIds | components/spin/Collection.tsx:174-176 | When every won id is in the pool, the corrected and as-written percentages agree |
| CollectionView.NonDivineItems | components/spin/Collection.tsx:183 | Exactly the pool items that are not divine |
| CollectionView.NonDivineUnlocked | components/spin/Collection.tsx:184 | The won non-divine cards number at most the non-divine cards |
| CollectionView.SortedCards | components/spin/Collection.tsx:272-292 | Both card lists are sorted stably by display order and are permutations of the unlocked and locked cards |
| LoginScreen.Message | components/LoginScreen.tsx:48-87 | Each error's text; only NoError is the empty line |
| LoginScreen.NormalizedEmptyIffBlank | components/LoginScreen.tsx:53-55 | The normalised nickname is empty exactly when the typed one is all whitespace |
| LoginScreen.LoginForm.constructor | components/LoginScreen.tsx:19-23 | The form starts empty: no error, no shake, attempts 0, no hint |
| LoginScreen.LoginForm.HandleSubmit | components/LoginScreen.tsx:48-87 | Clears the error and the hint. Empty and invalid nicknames are rejected with their messages. KLENKOZARASHI takes two steps: attempts go 0 to 1, then the hint shows. login is called exactly when the nickname is non-empty, valid and not KLENKOZARASHI. A successful login leaves the store holding the fresh player and the generator's first spin. isSpinning, lastResult and showVictoryScreen are untouched in every case. A refused login shows an error. Every rejection shakes; the nickname is kept |
| LoginScreen.LoginForm.TryLogin | components/LoginScreen.tsx:82-86 | Succeeds exactly for a valid nickname. On success the store holds the fresh player and the generator's first spin. The store's isSpinning, lastResult and showVictoryScreen are never touched. On failure it shows the login error and the store is unchanged |
| LoginScreen.LoginForm.OnChange | components/LoginScreen.tsx:283-286 | The typed text is stored upper-cased and the error is cleared |
| LoginScreen.LoginForm.UseHint | components/LoginScreen.tsx:310-314 | Every O/o of the nickname becomes 0, and the error and hint are cleared |
| LoginScreen.EasterEggNicknameIsInvalid | components/LoginScreen.tsx:61-68 | KLENKOZARASHI is not a valid nickname, so its branch comes after a check that already rejected it |
| LoginScreen.SubmitWithRegistry | components/LoginScreen.tsx:61-82 | With the registry's check, a submit never touches the attempts or shows the hint. login is called exactly for a valid nickname and always succeeds |
| LoginScreen.HintedNicknameIsInvalid | components/LoginScreen.tsx:310-314 | The hint turns KLENKOZARASHI into KLENK0ZARASHI, which is not valid either |

## Left out

- Text.ToUpper: upper-cases a-z, dotless i (U+0131) and long s (U+017F), the only letters whose upper case is a single ASCII letter. Other non-ASCII letters keep their case, for example é instead of É. The length-changing mappings such as ß to SS and the ligature ﬁ to FI are not modelled. Their results hold a non-ASCII character, or SS, FF, FI, FL or ST, and none of these occurs in KLENKO or HOHOYKS. So validity, player lookup, pool choice and template choice agree with the source. Only the upper-cased text the form stores and passes on can differ.
- Randomness: `Math.random` and its thresholds 0.5/0.75/0.9/0.96 are not modelled. Their outcome is a parameter: the filler branch and index for each background slot, and the offset inside the winning window. The model does not capture the probabilities.
- `generateRandomSpin`, `hasSpinsRemaining`, `getFormattedChances`, `isCollectionComplete` and the filler pools `COMMON_ITEMS` … `MYTHIC_ITEMS` are not part of this model. They are parameters or uninterpreted values, and nothing about their behaviour is assumed. `isCollectionComplete` is left out entirely.
- Players.GenerateSpinItems: the `totalItems` default of 50 is not modelled. Every caller passes the length explicitly.
- Persistence: the storage layer, that is zustand `persist` and localStorage, is not modelled. Only the choice of which fields are kept, and the regeneration of the spin on load, are.
- Timestamps (`Date.now`) are opaque integers in `SpinResult`.
- RARITY_CONFIG: the cosmetic fields are not modelled. These are `soundIntensity` (a float) and the background, border and particle colour strings.
- The constants `KLENKO_DIVINE_ITEM`, `HOHOYKS_DIVINE_ITEM` and `KLENKO_HELLISH_DIVINE_ITEM` are not modelled. Each only names the first element of its divine list.
- `MISA_ITEM_IDS` and `OKSIK_ITEM_IDS` are listed as constants but nothing is proved about them. None of their ids appears in the item pools.
- LoginScreen.LoginForm.HandleSubmit: the shake is modelled as a flag that a rejection sets. The timer that clears it, and the GSAP keyframes, are animation. The input's `maxLength` is a rendering attribute.
- LoginScreen.Message: the error line is a `FormError` value and `Message` gives its text.
- CollectionView.CompletionPercent: computed in exact integer arithmetic. The float rounding of `(u / n) * 100` before `Math.floor` is not modelled.
- InventoryView.DisplayedItems: the store keeps the inventory as a value, so the aliasing between the "all" list and the store's inventory is modelled only at this method's interface, where the caller's array is sorted in place.
- Rendering, animation, audio, screen routing and the achievement checks in `stores/specialMechanics` are not part of this model.

## Findings

| source | as written | input that shows it | evidently intended | confidence | as-written member | corrected member |
|---|---|---|---|---|---|---|
| components/spin/Collection.tsx:144-176 | `completionPercent` divides the number of distinct won ids by the pool size, whether or not those ids belong to the pool | Pool `[card]` and inventory `[won]` with `won.item.id != card.id`: 100% complete, no card unlocked. This happens whenever the inventory holds items of the other KLENKO pool (normal or hellish) | The share of the pool's own cards that have been won, at most 100% | medium; not executed | CollectionView.CompletionCountsIdsOutsidePool | CollectionView.PoolCompletionPercent |
