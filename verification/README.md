# Gacha card draw with pity — a Dafny model

This project models the logic inside `app.py`, a Twitch chat bot that hands
each chatter a randomly drawn card. Around the database and network calls
there are four small pieces of logic, and the model covers each of them:

- **Pity counter** (`Pity`). Each user has a counter of draws since their
  last epic or legendary card. At 14 or more the draw is forced to the epic/legendary
  table. The counter is reset by any epic or legendary and raised by one
  otherwise.
- **Reward resolution** (`Inventory`). The `inventory` collection is modelled
  as a sequence of `(user, card, quantity)` documents. A card the user already
  owns gets one more copy and 5 tokens. A new card gets an entry of quantity 1,
  one more unique card and 20 tokens.
- **Card cache** (`CardCache`). `load_card_cache` groups the cards by rarity,
  with a missing rarity grouped under `"common"`. `get_random_card_from_cache`
  samples from the requested group, falls back to all cards, and gives nothing
  only when the cache is empty.
- **Log normalisation** (`EventLog`). `log_event` reads a details dictionary
  in either the old or the new key naming and produces canonical fields, using
  alias precedence and defaults.

`Gacha.Draw` puts these together as `give_random_card`, working on an
immutable `State` made of the `users` map, the inventory documents and the
history log. Random outcomes arrive as an `Oracle`:

- the weighted tier;
- the forced epic/legendary tier, whose type only admits those two;
- the index that `$sample` lands on, reduced modulo the pool size.

The model follows the code on four points where a reader might expect
otherwise:

- The draw takes its card from the `cards` collection with
  `$match rarity == tier` (app.py:163-166). It does not use the cache's
  fallback. If no card has the selected tier, `.next()` fails. The model
  returns `NoCard` in that case.
- The pity counter and display name are written (app.py:157-160) before the
  card is looked up. So a draw that finds no card has still created the user
  and changed their counter. The model keeps that order.
- The logged and overlay rarity is the selected tier (app.py:195, 206). A
  `$match` card always has that rarity anyway.
- The draw's log details carry no pity key (app.py:193-198). So the
  normalised pity flag of every draw log is false, forced draws included.

## Model

| member | source | states |
|---|---|---|
| Pity.Next | app.py:143-154 | The draw is forced exactly when the stored counter is at least 14. A forced draw takes the epic/legendary outcome; otherwise the weighted tier is used. The new counter is 0 after an epic or legendary and old + 1 after any other tier. A counter in [0, 14] stays in [0, 14]. |
| Pity.After | app.py:143-154 | After any number of draws, a counter that started in [0, 14] is still in [0, 14]. |
| Pity.CounterIsDrought | app.py:143-154 | The stored counter always equals the number of draws since the last epic or legendary. If there was none, it is the starting value plus the number of draws. |
| Pity.TopTierWithin | app.py:143-154 | From a counter p in [0, 14], one of the next 15 − p draws selects an epic or legendary tier. |
| Pity.WindowHasTopTier | app.py:130-154 | From a counter in [0, 14], every 15 consecutive draws select an epic or legendary tier. |
| CardCache.GroupKey | app.py:41 | A card's group is its own rarity when it has one. The group is "common" exactly when the rarity is missing or is "common" itself. |
| CardCache.Insert | app.py:42 | `setdefault(...).append` keeps the existing keys in their insertion order. It adds at most one group, at the end, holding just the card, and only when no existing group has the card's key. |
| CardCache.InsertLookup | app.py:41-42 | `setdefault(...).append` adds the card to the end of its rarity's group, creating the group if needed. Every other group is unchanged. |
| CardCache.InsertFlatten | app.py:41-42 | The union of all groups gains exactly the inserted card. |
| CardCache.LoadCardCache | app.py:36-43 | Each group holds exactly the cards of its key, in catalog order, with a card lacking rarity under "common". The groups together are a permutation of the catalog, so the total count is kept, and no group is empty. |
| CardCache.Sample | app.py:110-115 | When the requested group is non-empty, the result is a member of that group. Otherwise it is some cached card. The result is None exactly when the cache holds no card. |
| CardCache.SampleReachesPool | app.py:113-115 | Every card of the pool being sampled is returned for some value of the random index. |
| CardCache.SampleAfterLoad | app.py:110-115 | After the cache is loaded from the catalog, sampling gives None exactly for an empty catalog. It otherwise returns a catalog card, and that card is of the requested rarity whenever the catalog has one. |
| Inventory.Find | app.py:169 | `find_one` returns the first document for the (user, card) pair. It gives None exactly when no document matches. |
| Inventory.Resolve | app.py:169-180 | The card counts as new exactly when the user has no entry for it. A new card awards 20 tokens and a duplicate awards 5; the tier is not an input. The pair's quantity rises by one and every other pair's quantity is unchanged. |
| Inventory.ResolveInvariants | app.py:169-180 | The update keeps one document per pair and every quantity at least 1. The user's entry count rises by one only for a new card, and their total copies rise by one. Every other user's documents are unchanged. |
| EventLog.FirstTruthy | app.py:60-61 | A chain of `or` returns the first truthy alias. If no alias is truthy, it returns the default. |
| EventLog.FirstPresent | app.py:64-81 | A chain of `is None` tests returns the first alias that is not None. If every alias is None, it returns the default. |
| EventLog.NormalizePrecedence | app.py:57-85 | Each canonical field follows its alias order. Name: name, card_name, card, then "Desconhecida", skipping falsy values. Rarity: rarity, raridade, then "???". Flag: got_new, nova_carta, then False, skipping only None. Tokens: tokens_gained, tokens_ganhos, then tokens if truthy, else 0. Pity: pity_forced, pity, then False. |
| EventLog.Normalize | app.py:57-85 | The normalised name and rarity are always truthy, and the flag and tokens are never None. A missing details argument gives "Desconhecida", "???", False, 0 and no pity. |
| EventLog.StatusOfDetails | app.py:64-99 | Read off the raw details, the console shows NOVA exactly when the first new-card alias that is present (got_new, else nova_carta) is truthy. A log with neither flag shows REPETIDA with the normalised tokens. |
| Gacha.OfTier | app.py:163-166 | `$match` selects exactly the catalog cards whose rarity field equals the tier name. A card with no rarity field matches no tier. |
| Gacha.Persist | app.py:157-160 | Storing the step writes the user's counter and display name and nothing else. A new user's record is created; other users, the inventory and the history are unchanged. |
| Gacha.Award | app.py:169-199 | The reward adds one unique card and 20 tokens for a card the user did not own, and 5 tokens otherwise. Name, counter and other users are unchanged. The inventory is the resolved one, and the history gains one "Recebeu carta" entry for this user. |
| Gacha.DrawDetails | app.py:193-198 | The draw's details dictionary normalises to the card's name (or "Desconhecida" when empty), the tier's name, the new-card flag, the tokens and no pity. |
| Gacha.NewUserDraw | app.py:129-183 | A chatter's first draw creates exactly their record: the display name, the counter the pity step leaves from 0, and the unique-card count and tokens of this draw's reward alone, whether or not a card is found. In a valid database the newcomer owns nothing, so a found card is new and the tokens are 20. |
| Gacha.Draw | app.py:118-199 | The draw creates the user if needed and updates only that user's record. The counter and name are stored before the card lookup. The tier and counter follow the pity step. NoCard happens exactly when no catalog card has that tier, and it leaves inventory and history unchanged. Otherwise the draw returns a card of the selected tier and applies the reward: one more unique card for a new card, and its tokens added to the user's previous total. A NoCard draw stores the new-user record (or the existing one) with only name and counter changed. It appends one log entry, and the overlay carries the selected tier. |
| Gacha.PersistValid | app.py:129-160 | Storing a counter in [0, 14] with the display name keeps the state valid. This holds even for a user created by this draw, who owns nothing yet. |
| Gacha.AwardValid | app.py:169-183 | Applying the reward and its two counter increments keeps the state valid. Other users' inventory documents are unchanged. |
| Gacha.DrawPreservesValid | app.py:169-183 | Each draw keeps: one document per pair, quantities ≥ 1, the counter in [0, 14], unique count equal to the entry count, and tokens equal to 20 × distinct cards + 5 × extra copies. Other users' documents are unchanged. |
| Gacha.DrawLogRoundTrip | app.py:189-199 | A successful draw's log entry normalises back to the draw's own new-card flag, tokens and selected tier. The name comes back too, with an empty name shown as "Desconhecida". The pity flag is always false. The console shows "NOVA" exactly for new cards. |
| Gacha.RunFollowsPity | app.py:129-160 | One user's consecutive draws select exactly the tiers of the pity machine started from their stored counter. They leave the counter at the machine's final value. |
| Gacha.RunWindowHasTopTier | app.py:129-160 | From a valid state, any 15 consecutive draws by one user select an epic or legendary tier at least once. |
| Gacha.InterleavedFollowsPity | app.py:129-160 | Within any interleaving of draws by many users, one user's draws select exactly the tiers of the pity machine run over that user's own rolls. |
| Gacha.InterleavedWindowHasTopTier | app.py:129-160 | From a valid state, any 15 consecutive draws of one user select an epic or legendary tier, however other users' draws are interleaved. |
| Gacha.EmptyValid | app.py:118-183 | The empty database satisfies every invariant of a valid state. |
| Gacha.ReplayValid | app.py:118-183 | Any interleaving of draws by any users keeps a valid state valid. |
| Gacha.FirstAndRepeatDraw | app.py:169-183 | A new user who draws the same common card twice first gets a new entry and 20 tokens, with counter 1. The second draw gives one entry of quantity 2, 5 more tokens and counter 2. |
| Gacha.ForcedDraw | app.py:143-146 | At a counter of 14 or more the tier is the forced epic/legendary outcome, whatever the weighted roll. The counter returns to 0 whether or not a card is found. |

## Left out

- MongoDB calls (`find_one`, `insert_one`, `update_one`, `$inc`, `aggregate`) become pure updates of the state. A crash between the separate updates, which leaves partial state, is not modelled.
- `random.choices` / `random.choice` and the float weight tables (app.py:25-31, 104-107, 120-126) become oracle values. The forced choice is typed to epic/legendary. Distributions are not modelled.
- The `$sample` stage becomes an oracle index taken modulo the pool size. Uniformity is not modelled.
- The Twitch bot class, `event_message`, bits parsing, the second bits log and the `!test` command (app.py:220-279) are chat plumbing. The bits path also indexes keys that the returned card document lacks.
- The overlay HTTP POST, its status handling and the placeholder image URL (app.py:202-214) are network I/O. Only the payload's user, name and rarity are modelled, in `Overlay`.
- Environment configuration (app.py:9-14), the `log_history` timestamp and its UTC−3 zone, and console formatting are left out, except for the NOVA/REPETIDA choice.
- Pity.WindowHasTopTier, Gacha.RunWindowHasTopTier and Gacha.InterleavedWindowHasTopTier promise a selected epic or legendary tier, not a received card: if the catalog has no card of that tier, `.next()` raises (app.py:166) and the chatter gets nothing.
- The cache's atomic reload under concurrent readers is not modelled: the model is single-threaded.
- `Gacha.Draw` treats `.next()` raising on an empty `$sample` result as a `NoCard` outcome, rather than an exception escaping the caller.
- A card document without `name` would raise `KeyError`; modelled cards always have a name.
- A card whose rarity is stored as an explicit null would be grouped under a `None` key. Modelled rarities are either absent or a string.
- A `users` document without `pity_counter` would read as 0. Every modelled user is created by the draw with counter 0. The missing `tokens` field of a new user, which `$inc` reads as 0, is stored as 0 from the start.
- Inventory documents are keyed by the user's twitch id rather than the user document's `_id`, which is one-to-one with it here.
- Details values other than None, booleans, integers and strings (floats, lists) are not modelled. Keys that `log_event` stores but does not read (`bits`, `card_id`, `pity_triggered`) are not modelled either.
