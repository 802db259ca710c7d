# game-hunt: change detection and notification, modelled in Dafny

game-hunt is a scheduled job. It polls the Epic Games Store and Steam for
games that are free right now, normalises both feeds into one item shape,
diffs them against a JSON snapshot on disk, and posts Telegram messages about
what is new. This project models that core and proves what it guarantees,
and what it does not guarantee.

- `seqs.dfy` (`Seqs`) holds the shared sequence vocabulary: JavaScript's
  order-preserving `filter`, de-duplication that keeps the first element per
  key, and the subsequence relation both establish.
- `items.dfy` (`Items`) defines the canonical item record, optional values,
  the outcome of an HTTP request (`Fetch`), and JavaScript truthiness of an id.
- `storage.dfy` (`Storage`) models `lib/storage.js`. The data file is the
  one field of the `GameStore` class. A save has three outcomes: written,
  refused (file untouched), or truncated (file left unreadable). The
  `findNewGames`/`findEndedGames` diff is a pure function of the loaded
  snapshot.
- `steam.dfy` (`Steam`) models `lib/steam.js`, covering:
  - the free test;
  - the featured-specials mapping;
  - app details;
  - the search-page scan for `data-ds-appid`, including the cap of ten ids;
  - de-duplication, where items from the featured API win.
- `epic.dfy` (`Epic`) models `lib/epic-games.js`: the free-and-promoted
  filter, price data, promotion window, store link (with the trailing
  `-YYYY-MM-DD` stripped from product slugs) and image choice.
- `dispatch.dfy` (`CheckGiveaways`) models `api/check-giveaways.js`. It
  covers:
  - which messages a run attempts;
  - how `messagesSent` counts the sends that succeeded;
  - the layout of the daily summary (active offers, Steam, upcoming offers
    sorted by start, and the separator);
  - the handler as a whole.

The network, the clock and the Telegram results are parameters. Loops and
state changes that the source performs step by step are methods, each proved
equal to a specification function: `parseFreeGamesFromAPI`,
`parseFreeGamesFromPage`, `extractAppIds`, `removeDuplicates`,
`getPromotionData`, the sends of the handler, and the store's
`saveGames`/`updateGames`.

Behaviour of the code that the proofs bring out:

- The save is a plain overwrite of the file, not an atomic replace, so a
  failed write can leave an unreadable file. The next run then treats every
  current offer as new (`Storage.TruncatedSaveFloods`).
- The diff computes ended games, but the handler never sends an "ended"
  message. The model follows the code.
- Only active new Epic offers are announced. Yet every new offer is saved,
  upcoming ones included. An offer first seen while upcoming is therefore
  not announced in an Epic new-games message by the next run, even once it
  has started (`CheckGiveaways.StoredOfferNeverAnnouncedAgain`).
- A failed storefront request yields an empty list, which is saved. That run
  reports every stored offer of the platform as ended, and the next run
  reports every current one as new again
  (`CheckGiveaways.FailedEpicFetchForgetsOffers`).

## Model

| member | source | states |
|---|---|---|
| Storage.FindNewGames | lib/storage.js:64-73 | result is a subsequence of the fresh list; an item is in it iff it is in the fresh list, has a truthy id, and that id is not among the stored truthy ids; multiplicities are kept |
| Storage.FindEndedGames | lib/storage.js:75-84 | result is a subsequence of the stored list; an item is in it iff it is stored, has a truthy id, and that id is missing from the fresh list; multiplicities are kept |
| Storage.LoadFrom | lib/storage.js:28-45 | an absent or unparsable file gives empty lists and no timestamp; otherwise each missing key defaults to the empty list |
| Storage.GameStore.constructor | lib/storage.js:5-26 | a missing file becomes the empty document when the write succeeds, stays absent when refused, and is unreadable when truncated; an existing file is left alone |
| Storage.GameStore.LoadGames | lib/storage.js:28-45 | reading the store is `LoadFrom` of its current file |
| Storage.GameStore.SaveGames | lib/storage.js:47-62 | returns true iff the write went through; the new file is `AfterSave` of the old one (written: the document with both lists and `now`; refused: unchanged; truncated: unreadable); afterwards a written store loads exactly the saved lists stamped with `now`, and a refused write leaves what it loads unchanged |
| Storage.GameStore.UpdateGames | lib/storage.js:86-110 | the report is `Diff`, the `changes` object of lines 95-100 (new and ended items per platform, from `findNewGames`/`findEndedGames`), of the fresh lists against the snapshot loaded before the save, whatever the save's outcome; the file is then overwritten with the fresh lists |
| Storage.GameStore.GetStats | lib/storage.js:112-119 | the counts and timestamp of what the store currently loads |
| Storage.NewIdsAreFreshMinusOld | lib/storage.js:64-73 | the ids reported new are exactly the fresh truthy ids minus the stored ones |
| Storage.EndedIdsAreOldMinusFresh | lib/storage.js:75-84 | the ids reported ended are exactly the stored truthy ids minus the fresh ones |
| Storage.SameListNoChanges | lib/storage.js:64-84 | diffing a stored list against itself reports nothing new and nothing ended |
| Storage.TrackedIdsOfTrackedOnly | lib/storage.js:66 | dropping items without a truthy id does not change the id set |
| Storage.UntrackedItemsIgnored | lib/storage.js:64-84 | lists that agree on their items with truthy ids give the same new and ended reports: id-less items never matter |
| Storage.PlatformsIndependent | lib/storage.js:95-100 | each platform's new/ended report depends only on that platform's stored and fresh lists |
| Storage.EmptyStoredListReportsAllTracked | lib/storage.js:64-69 | with nothing stored for a platform, every fresh item with a truthy id is new and nothing has ended |
| Storage.MissingKeyLoadsEmpty | lib/storage.js:34-38 | a document without an `epic` key reports every tracked fresh Epic item as new |
| Storage.SaveThenLoad | lib/storage.js:47-62 | after a successful save the store loads the saved lists and the stats count them |
| Storage.SaveOfLoadKeepsLists | lib/storage.js:47-55 | saving what was loaded gives back the same lists |
| Storage.RepeatedRunReportsNothing | lib/storage.js:86-110 | after a successful update, a second update with the same lists reports no changes |
| Storage.RefusedSaveRereports | lib/storage.js:58-61 | after a refused save the next run reports exactly what this one reported |
| Storage.TruncatedSaveFloods | lib/storage.js:40-44 | after a truncated save the next run reports every tracked item as new and nothing as ended |
| Steam.IsGameFreeByOriginalPrice | lib/steam.js:161-169 | `IsGameFree`, the test of `isGameFree`, holds for a special iff its original price is zero, or is positive with a final price of zero |
| Steam.DecimalRoundTrip | lib/steam.js:151 | the decimal text of a numeric app id reads back as the same number |
| Steam.DecimalStringInjective | lib/steam.js:151 | distinct numeric app ids give distinct string ids |
| Steam.ApiItem | lib/steam.js:140-153 | the item for a special has the stringified id, so it is tracked; it is active, starts now and ends seven days later; it has a price label iff the original price is non-zero |
| Steam.ApiItems | lib/steam.js:138-155 | one item per special, position by position |
| Steam.ApiGames | lib/steam.js:132-159 | without `specials.items` the result is empty; otherwise it is the items of the free specials, in input order |
| Steam.ParseFreeGamesFromAPI | lib/steam.js:132-159 | the loop computes `ApiGames` |
| Steam.GameDetails | lib/steam.js:88-130 | an item is produced iff the request succeeded with `success` and the game is free or has a zero final price; that item has the given app id, is active, starts now and has no end |
| Steam.DetailsList | lib/steam.js:59-67 | at most one item per id, each for one of the ids, active and open-ended; every non-null details result of an id is kept; distinct ids give distinct item ids |
| Steam.DetailsListStep | lib/steam.js:59-67 | one more id adds at most that id's item at the end |
| Steam.MatchEnd | lib/steam.js:78 | a match is the literal `data-ds-appid="`, a non-empty digit run, and a closing quote |
| Steam.Captures | lib/steam.js:78-83 | every captured id is a digit string |
| Steam.AppIds | lib/steam.js:76-86 | the captured ids, each once: a subsequence of the captures, with the same members, all digits, pairwise distinct, and ordered by the position where each id is first captured |
| Steam.ExtractAppIds | lib/steam.js:76-86 | the scanning loop computes `AppIds` |
| Steam.FirstPage | lib/steam.js:59 | at most ten ids, a prefix of the scanned ids, and all of them when there are at most ten |
| Steam.FirstPageDistinct | lib/steam.js:59 | the first ten of distinct ids are distinct |
| Steam.PageGames | lib/steam.js:37-74 | at most ten items, none for a failed page, each active with an id among the first ten scanned ids, and no repeated ids; every non-null details result of those ten ids is kept, and the list is `DetailsList` of them, whose order `DetailsListStep` fixes |
| Steam.ParseFreeGamesFromPage | lib/steam.js:37-74 | the loop over the first ten ids computes `PageGames` |
| Steam.RemoveDuplicates | lib/steam.js:171-180 | keeps exactly the first item with each id, in order, losing no id |
| Steam.GetFreeGames | lib/steam.js:8-35 | the result is `FreeGames` of the responses: a failed API request yields nothing; otherwise API items then page items, de-duplicated; on an id collision the API item is kept; ids are distinct |
| Epic.GetPriceData | lib/epic-games.js:54-80 | no price gives no label and not meaningful; otherwise the label is the formatted original price or the empty string, and the price is meaningful iff the numeric original price is positive and the label is not "", "0" or "0₴" |
| Epic.MeaningfulPriceIsShowable | lib/epic-games.js:64-70 | a meaningful price always carries a showable label from the feed |
| Epic.FirstOffer | lib/epic-games.js:91-92 | an offer is only taken from a non-empty group list whose first group has offers |
| Epic.Promotion | lib/epic-games.js:82-114 | an upcoming offer that starts later than now sets both dates and is inactive; otherwise a current offer sets both dates and is active iff now lies in its closed window; start and end are set together; both are unset iff there is no current offer and no upcoming offer that starts later than now |
| Epic.GetPromotionData | lib/epic-games.js:82-114 | the two sequential checks compute `Promotion`, and `isActive` implies that now is within the dates |
| Epic.ContainsAt | lib/epic-games.js:127 | a substring found at some position is contained |
| Epic.ContainsIsIncludes | lib/epic-games.js:127 | `Contains` is `includes`: it holds iff the text occurs at some position |
| Epic.StripDateSuffix | lib/epic-games.js:128 | removes the last eleven characters exactly when they form `-DDDD-DD-DD`, and otherwise returns the slug unchanged |
| Epic.GetGameUrl | lib/epic-games.js:116-135 | the first offer-mapping slug wins, then the first catalog-mapping slug; a search by title happens iff neither exists and the product slug is missing or contains "/home" |
| Epic.ProductSlugFallback | lib/epic-games.js:127-130 | otherwise the product slug is used with its date suffix stripped, so its length is the same or eleven shorter |
| Epic.FindKindIndex | lib/epic-games.js:139 | the index of the first image of the kind, or the length when there is none |
| Epic.FindKind | lib/epic-games.js:139 | the found image is the first image of the kind (every earlier image has another kind); no image means no image of that kind |
| Epic.GetGameImage | lib/epic-games.js:137-143 | the first thumbnail's truthy URL, else the first wide offer image's truthy URL, else the first image's URL (nothing for an empty or missing list); any result is the URL of one of the images |
| Epic.ToItem | lib/epic-games.js:26-44 | the item carries the element's id and title, the promotion window and activity, the price data, the link and the image |
| Epic.ToItems | lib/epic-games.js:26-44 | one item per element, position by position |
| Epic.GetFreeGames | lib/epic-games.js:8-52 | a failed request or a missing element list yields nothing; otherwise one item per element kept by `IsFreePromoted` (lines 19-25: discount price 0 and a current or upcoming promotion), in feed order |
| Epic.FreeGamesAreInWindow | lib/epic-games.js:18-44 | every active item's window contains now, and every item comes from a free, promoted element with the same id |
| CheckGiveaways.InsertByStart | api/check-giveaways.js:85 | inserting into a list sorted by start keeps it sorted and adds exactly that item |
| CheckGiveaways.SortByStart | api/check-giveaways.js:85 | sorted ascending by start date and a permutation of the input |
| CheckGiveaways.SortedCons | api/check-giveaways.js:85 | an item no later than every element of a sorted list can go in front |
| CheckGiveaways.HeadStartsFirst | api/check-giveaways.js:85 | the head of a sorted list starts no later than anything inserted after it |
| CheckGiveaways.GiveawaySummary | api/check-giveaways.js:29-95 | the active section holds exactly the active Epic offers, in order and with their multiplicities; the upcoming section holds exactly the inactive offers with a start date, sorted by start, with their multiplicities; the Steam section is the Steam list; the separator appears iff both the active and the Steam sections are non-empty |
| CheckGiveaways.ActiveAndUpcomingDisjoint | api/check-giveaways.js:41-44 | no offer is in both Epic sections, and every offer with a start date is in one of them |
| CheckGiveaways.SentCount | api/check-giveaways.js:138 | never more successes than attempts |
| CheckGiveaways.SentCountAppend | api/check-giveaways.js:153-155 | one more send adds one exactly when it succeeded |
| CheckGiveaways.SentCountConcat | api/check-giveaways.js:138-178 | successes of consecutive sends add up |
| CheckGiveaways.SendEpicNew | api/check-giveaways.js:141-160 | attempts the Epic message with only the active new offers, and only when there are some; counts its success |
| CheckGiveaways.SendSteamNew | api/check-giveaways.js:163-178 | attempts the Steam message with every new Steam item when there is one; counts its success |
| CheckGiveaways.SendNewGames | api/check-giveaways.js:138-178 | the two new-games sends in order, with the count of those that succeeded, at most two |
| CheckGiveaways.Notify | api/check-giveaways.js:138-195 | the sends are `Attempts`: the new-games messages of the run, then the summary only when none of them was delivered and something is current; `messagesSent` counts the successful sends and is at most two |
| CheckGiveaways.AttemptsWithSummary | api/check-giveaways.js:181-195 | when nothing got through and something is current, the summary follows the new-games messages |
| CheckGiveaways.AttemptsWithoutSummary | api/check-giveaways.js:181-195 | otherwise only the new-games messages are attempted |
| CheckGiveaways.NewGamesDelivered | api/check-giveaways.js:138-178 | the new-games successes are one for an Epic message with an active new offer that went through, plus one for a Steam message that went through |
| CheckGiveaways.ActiveNewNonEmpty | api/check-giveaways.js:144-146 | the active filter is non-empty iff some new offer is active |
| CheckGiveaways.AttemptsExplicit | api/check-giveaways.js:138-195 | the run's sends, stated without counting: Epic iff some new offer is active, Steam iff anything is new on Steam, and the summary iff neither of those went through and something is current |
| CheckGiveaways.EpicMessageGames | api/check-giveaways.js:144-151 | an attempted Epic message lists exactly the active new offers |
| CheckGiveaways.Handler | api/check-giveaways.js:97-219 | missing token or chat id gives 500 with no sends and the file untouched; otherwise the fresh lists are diffed and saved, the sends are `Attempts` of that diff, and the 200 reply carries the new counts, the successful sends and the stats after the save |
| CheckGiveaways.SecondRunSendsOnlySummary | api/check-giveaways.js:132-195 | a run right after a successful run on the same data sends only the summary, and only if something is current |
| CheckGiveaways.StoredOfferNeverAnnouncedAgain | api/check-giveaways.js:141-159 | once a run's written save has stored an Epic offer, the next run (which loads that file) does not list an offer with that id in an Epic new-games message |
| CheckGiveaways.FailedEpicFetchForgetsOffers | lib/epic-games.js:48-51 | a failed Epic request reports every stored Epic offer as ended, and the next run reports every current Epic offer as new |
| CheckGiveaways.UpcomingOnlyNewEpicIsSilent | api/check-giveaways.js:141-160 | new Epic offers that are all upcoming produce no Epic message |

## Left out

- HTTP requests (axios) are not modelled. Each response is a parameter: `Fetch.Failed` stands for any thrown error, and `Fetched` for the parsed body.
- The concurrent fetch (`Promise.all`) is not modelled, because the two fetches share no state; the model runs them in sequence.
- The 100 ms pause between Steam detail requests is not modelled, because it has no effect on the result.
- The clock is not modelled; `now` is a parameter in milliseconds. `new Date()` is read separately in each function of the source, and the model uses one `now` for the whole run.
- Steam.ApiItem: `addDays` moves the calendar date with `setDate`; the model adds seven times 24 hours, so daylight-saving shifts are not captured.
- Dates that are strings after a JSON round trip, and invalid dates (`NaN` comparisons), are not modelled. The diff reads only ids, so neither affects change detection.
- Message text is not modelled: HTML templates, `toLocaleDateString`, and the per-game price line of `formatNewGamesMessage`. A message is modelled as the list of games it is built from.
- The Telegram client (lib/telegram.js) is not part of this model. The boolean each send returns is a parameter.
- Logging is not modelled.
- Steam price labels (`(cents / 100).toFixed(0) + "₴"`) involve floating-point formatting. They are given as a field of the special or price overview rather than computed.
- Epic.GetGameUrl: the search link carries the title without `encodeURIComponent` escaping.
- Steam.Captures: the regular expression `/data-ds-appid="(\d+)"/g` is modelled by a scanner, not a regular-expression engine. The scanner resumes after each match, as `exec` with the global flag does.
- The handler imports `SimpleStorage` from lib/simple-storage.js, which is not part of this model. The handler is modelled over the `Storage` class of lib/storage.js.
- CheckGiveaways.Handler: the store is built outside the modelled handler and passed in. The source builds it (api/check-giveaways.js:104) before the configuration check (line 111), so with lib/storage.js:18-21 even a misconfigured run creates a missing data file; the model's misconfigured run leaves the file untouched.
- CheckGiveaways.Handler: the final `catch` that answers 500 with `error.message` is not modelled, because no modelled step throws.
- Array elements that are `null` or not objects (`game?.id`) are not modelled, and neither are stored keys holding truthy non-arrays. Items always exist, and a stored key is either a list or missing.
- Ids are compared as strings. Steam API ids are numbers converted with `toString`, and the diff and `removeDuplicates` compare them with the string ids from the page and from the file.
- CheckGiveaways.SortByStart: proved sorted and a permutation, but not stable. `Array.prototype.sort` is stable, and the insertion used here keeps equal start dates in input order without a proof of it.
- local-test.js is not modelled, because it is a manual test script.
