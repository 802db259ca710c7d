/** The Steam fetcher's normalisation rules (lib/steam.js): which specials
    count as free, how a special or an app-details record becomes an
    `Item`, how app ids are scraped from the search page, and how the two
    result lists are merged and de-duplicated. HTTP responses are inputs. */
module Steam {
  import opened Items
  import opened Seqs

  /** One entry of `specials.items` in the featured-categories response.
      Prices are in cents and may be absent; `priceLabel` is the rendered
      `(original_price / 100).toFixed(0) + "₴"`. */
  datatype Special = Special(id: nat, name: string, finalPrice: Option<int>, originalPrice: Option<int>, priceLabel: string)

  /** `price_overview` of an app-details record; `initialLabel` is the
      rendered initial price. */
  datatype PriceOverview = PriceOverview(initial: int, final: int, initialLabel: string)

  datatype AppData = AppData(
    name: string,
    isFree: bool,
    priceOverview: Option<PriceOverview>,
    shortDescription: Option<string>,
    headerImage: Option<string>)

  /** `response.data[appId]` of the app-details endpoint. */
  datatype AppDetails = AppDetails(success: bool, data: AppData)

  const StoreAppUrl := "https://store.steampowered.com/app/"
  const CdnAppUrl := "https://cdn.cloudflare.steamstatic.com/steam/apps/"
  const PageLimit := 10

  // ---------------------------------------------------------------------
  // Free-game predicate

  /** `isGameFree`: a temporary giveaway (final price 0 of a positive
      original price) or a game whose original price is 0. */
  predicate IsGameFree(g: Special)
  {
    || (g.finalPrice == Some(0) && g.originalPrice.Some? && g.originalPrice.value > 0)
    || g.originalPrice == Some(0)
  }

  /** The same rule read per original price: it must be known and not
      negative, and a positive one must have been cut to 0. */
  lemma IsGameFreeByOriginalPrice(g: Special)
    ensures IsGameFree(g) <==>
              && g.originalPrice.Some?
              && g.originalPrice.value >= 0
              && (g.originalPrice.value > 0 ==> g.finalPrice == Some(0))
  {
  }

  // ---------------------------------------------------------------------
  // Decimal ids

  function DigitChar(d: nat): (c: char)
    requires d < 10
    ensures '0' <= c <= '9'
  {
    (('0' as int) + d) as char
  }

  predicate IsDigits(s: string)
  {
    |s| >= 1 && forall i :: 0 <= i < |s| ==> IsDigit(s[i])
  }

  /** `Number.prototype.toString()` of a non-negative integer id. */
  function DecimalString(n: nat): (s: string)
    ensures IsDigits(s)
  {
    if n < 10 then [DigitChar(n)] else DecimalString(n / 10) + [DigitChar(n % 10)]
  }

  /** The number a digit string denotes. */
  function DecimalValue(s: string): nat
    requires forall i :: 0 <= i < |s| ==> IsDigit(s[i])
  {
    if s == [] then 0
    else DecimalValue(s[..|s| - 1]) * 10 + DigitValue(s[|s| - 1])
  }

  function DigitValue(c: char): (d: nat)
    requires IsDigit(c)
    ensures d < 10
  {
    assert c as int >= '0' as int;
    c as int - '0' as int
  }

  /** Stringifying an id loses nothing, so distinct numeric ids stay distinct. */
  lemma {:induction false} DecimalRoundTrip(n: nat)
    ensures DecimalValue(DecimalString(n)) == n
  {
    if n >= 10 {
      DecimalRoundTrip(n / 10);
      var s := DecimalString(n);
      assert s[..|s| - 1] == DecimalString(n / 10);
    }
  }

  lemma DecimalStringInjective(m: nat, n: nat)
    ensures DecimalString(m) == DecimalString(n) ==> m == n
  {
    DecimalRoundTrip(m);
    DecimalRoundTrip(n);
  }

  // ---------------------------------------------------------------------
  // Specials from the featured-categories API

  function AddDays(t: Timestamp, days: int): Timestamp
  {
    t + days * DayMs
  }

  /** The item `parseFreeGamesFromAPI` pushes for a free special. */
  function ApiItem(g: Special, now: Timestamp): (item: Item)
    ensures item.id == Some(DecimalString(g.id)) && Tracked(item)
    ensures item.isActive && item.startDate == Some(now) && item.endDate == Some(now + 7 * DayMs)
    ensures item.originalPrice.Some? <==> g.originalPrice.Some? && g.originalPrice.value != 0
  {
    var id := DecimalString(g.id);
    Item(
      id := Some(id),
      title := g.name,
      description := "",
      url := StoreAppUrl + id,
      originalPrice := if g.originalPrice.Some? && g.originalPrice.value != 0 then Some(g.priceLabel) else None,
      hasMeaningfulPrice := false,
      startDate := Some(now),
      endDate := Some(AddDays(now, 7)),
      image := Some(CdnAppUrl + id + "/header.jpg"),
      platform := "Steam",
      isActive := true)
  }

  function ApiItems(specials: seq<Special>, now: Timestamp): (r: seq<Item>)
    ensures |r| == |specials|
    ensures forall i :: 0 <= i < |r| ==> r[i] == ApiItem(specials[i], now)
  {
    seq(|specials|, i requires 0 <= i < |specials| => ApiItem(specials[i], now))
  }

  lemma ApiItemsAppend(specials: seq<Special>, g: Special, now: Timestamp)
    ensures ApiItems(specials + [g], now) == ApiItems(specials, now) + [ApiItem(g, now)]
  {
  }

  /** What `parseFreeGamesFromAPI` returns for `data.specials.items`
      (`None` when either key is missing): the free specials, in order,
      each shaped by `ApiItem`. */
  function ApiGames(items: Option<seq<Special>>, now: Timestamp): (r: seq<Item>)
    ensures items.None? ==> r == []
    ensures items.Some? ==>
              && |r| == |Filter(items.value, IsGameFree)|
              && forall i :: 0 <= i < |r| ==> r[i] == ApiItem(Filter(items.value, IsGameFree)[i], now)
  {
    if items.None? then [] else ApiItems(Filter(items.value, IsGameFree), now)
  }

  /** `parseFreeGamesFromAPI`: one item per free special, in input order. */
  method ParseFreeGamesFromAPI(items: Option<seq<Special>>, now: Timestamp) returns (freeGames: seq<Item>)
    ensures freeGames == ApiGames(items, now)
  {
    freeGames := [];
    if items.Some? {
      var specials := items.value;
      for i := 0 to |specials|
        invariant freeGames == ApiItems(Filter(specials[..i], IsGameFree), now)
      {
        assert specials[..i + 1] == specials[..i] + [specials[i]];
        FilterAppend(specials[..i], specials[i], IsGameFree);
        if IsGameFree(specials[i]) {
          ApiItemsAppend(Filter(specials[..i], IsGameFree), specials[i], now);
          freeGames := freeGames + [ApiItem(specials[i], now)];
        }
      }
      assert specials[..|specials|] == specials;
    }
  }

  // ---------------------------------------------------------------------
  // App details

  /** `getGameDetails` given the app-details response for `appId`: an item
      only for a successful record that is free or priced at 0. */
  function GameDetails(appId: string, response: Fetch<Option<AppDetails>>, now: Timestamp): (r: Option<Item>)
    ensures r.Some? <==>
              && response.Fetched?
              && response.body.Some?
              && response.body.value.success
              && (response.body.value.data.isFree ||
                  (response.body.value.data.priceOverview.Some? && response.body.value.data.priceOverview.value.final == 0))
    ensures r.Some? ==>
              && r.value.id == Some(appId)
              && r.value.isActive
              && r.value.startDate == Some(now)
              && r.value.endDate.None?
  {
    match response
    case Failed => None
    case Fetched(body) =>
      if body.None? || !body.value.success then None
      else
        var game := body.value.data;
        var isFree := game.isFree || (game.priceOverview.Some? && game.priceOverview.value.final == 0);
        if !isFree then None
        else
          Some(Item(
            id := Some(appId),
            title := game.name,
            description := if game.shortDescription.Some? then game.shortDescription.value else "",
            url := StoreAppUrl + appId,
            originalPrice := if game.priceOverview.Some? then Some(game.priceOverview.value.initialLabel) else None,
            hasMeaningfulPrice := false,
            startDate := Some(now),
            endDate := None,
            image := if Truthy(game.headerImage) then game.headerImage else Some(CdnAppUrl + appId + "/header.jpg"),
            platform := "Steam",
            isActive := true))
  }

  /** The non-null details of `appIds`, in order. */
  function DetailsList(appIds: seq<string>, details: string -> Fetch<Option<AppDetails>>, now: Timestamp): (r: seq<Item>)
    ensures |r| <= |appIds|
    ensures forall g :: g in r ==> g.id.Some? && g.id.value in appIds && g.isActive && g.endDate.None?
    ensures (forall i, j :: 0 <= i < j < |appIds| ==> appIds[i] != appIds[j]) ==>
              forall i, j :: 0 <= i < j < |r| ==> r[i].id != r[j].id
    ensures forall id :: id in appIds && GameDetails(id, details(id), now).Some? ==>
              GameDetails(id, details(id), now).value in r
  {
    if appIds == [] then []
    else
      var front, last := appIds[..|appIds| - 1], appIds[|appIds| - 1];
      var r := DetailsList(front, details, now);
      assert forall x :: x in front ==> x in appIds;
      match GameDetails(last, details(last), now)
      case None => r
      case Some(g) =>
        assert (forall i, j :: 0 <= i < j < |appIds| ==> appIds[i] != appIds[j]) ==> last !in front;
        r + [g]
  }

  /** One more id in the prefix adds at most that id's item. */
  lemma DetailsListStep(ids: seq<string>, i: nat, details: string -> Fetch<Option<AppDetails>>, now: Timestamp)
    requires i < |ids|
    ensures DetailsList(ids[..i + 1], details, now) ==
              DetailsList(ids[..i], details, now)
              + (match GameDetails(ids[i], details(ids[i]), now) case None => [] case Some(g) => [g])
  {
    assert ids[..i + 1][..i] == ids[..i];
  }

  // ---------------------------------------------------------------------
  // Scraping app ids from the search page

  /** The literal part of `/data-ds-appid="(\d+)"/` before the digits. */
  const AttrPrefix := "data-ds-appid=\""

  /** How many digits start at position `i`. */
  function DigitRun(html: string, i: nat): (n: nat)
    requires i <= |html|
    ensures i + n <= |html|
    ensures forall k :: i <= k < i + n ==> IsDigit(html[k])
    ensures i + n < |html| ==> !IsDigit(html[i + n])
    decreases |html| - i
  {
    if i < |html| && IsDigit(html[i]) then 1 + DigitRun(html, i + 1) else 0
  }

  /** Where a match of the pattern starting exactly at `p` ends, if one does. */
  function MatchEnd(html: string, p: nat): (e: Option<nat>)
    ensures e.Some? ==> p + |AttrPrefix| + 2 <= e.value <= |html|
    ensures e.Some? ==> html[p..p + |AttrPrefix|] == AttrPrefix && html[e.value - 1] == '"'
    ensures e.Some? ==> IsDigits(html[p + |AttrPrefix|..e.value - 1])
  {
    if p + |AttrPrefix| <= |html| && html[p..p + |AttrPrefix|] == AttrPrefix then
      var n := DigitRun(html, p + |AttrPrefix|);
      var q := p + |AttrPrefix| + n;
      if n > 0 && q < |html| && html[q] == '"' then Some(q + 1) else None
    else None
  }

  /** The captured groups of a global search from position `p` onward:
      each match resumes the search where the previous one ended. */
  function Captures(html: string, p: nat): (r: seq<string>)
    ensures forall s :: s in r ==> IsDigits(s)
    decreases |html| - p
  {
    if p >= |html| then []
    else
      match MatchEnd(html, p)
      case Some(e) => [html[p + |AttrPrefix|..e - 1]] + Captures(html, e)
      case None => Captures(html, p + 1)
  }

  function StringKey(s: string): string
  {
    s
  }

  /** What `extractAppIds` returns: every captured id, each once, in order
      of first occurrence. */
  function AppIds(html: string): (r: seq<string>)
    ensures IsSubsequence(r, Captures(html, 0))
    ensures forall s :: s in r <==> s in Captures(html, 0)
    ensures forall s :: s in r ==> IsDigits(s)
    ensures forall i, j :: 0 <= i < j < |r| ==> r[i] != r[j]
    ensures forall i, j :: 0 <= i < j < |r| ==>
              && r[i] in KeysOf(Captures(html, 0), StringKey) && r[j] in KeysOf(Captures(html, 0), StringKey)
              && FirstIndexWith(Captures(html, 0), StringKey, r[i]) < FirstIndexWith(Captures(html, 0), StringKey, r[j])
  {
    var found := Captures(html, 0);
    var r := Distinct(found, StringKey);
    DistinctSpec(found, StringKey);
    DistinctKeepsFirstOrder(found, StringKey);
    SubsequenceMembers(r, found);
    assert forall s :: s in found ==> s in r by {
      forall s | s in found ensures s in r {
        assert StringKey(s) in KeysOf(found, StringKey);
      }
    }
    r
  }

  /** `extractAppIds`: scans for every match of the attribute pattern, then
      drops repeated ids. */
  method ExtractAppIds(html: string) returns (appIds: seq<string>)
    ensures appIds == AppIds(html)
  {
    var found: seq<string> := [];
    var p := 0;
    while p < |html|
      invariant p <= |html|
      invariant found + Captures(html, p) == Captures(html, 0)
      decreases |html| - p
    {
      match MatchEnd(html, p)
      case Some(e) =>
        found := found + [html[p + |AttrPrefix|..e - 1]];
        p := e;
      case None =>
        p := p + 1;
    }
    assert found == Captures(html, 0);
    appIds := Distinct(found, StringKey);
  }

  /** The first `PageLimit` ids, as `appIds.slice(0, 10)`. */
  function FirstPage(appIds: seq<string>): (r: seq<string>)
    ensures |r| <= PageLimit && |r| <= |appIds| && r == appIds[..|r|]
    ensures |appIds| <= PageLimit ==> r == appIds
  {
    if |appIds| <= PageLimit then appIds else appIds[..PageLimit]
  }

  /** What `parseFreeGamesFromPage` returns for a page response: at most
      ten items, each for one of the first ten scraped app ids, no two with
      the same id, and every non-null details result of those ids, in the
      order `DetailsListStep` fixes; a failed page yields nothing. */
  function PageGames(page: Fetch<string>, details: string -> Fetch<Option<AppDetails>>, now: Timestamp): (r: seq<Item>)
    ensures |r| <= PageLimit
    ensures page.Failed? ==> r == []
    ensures forall g :: g in r ==> g.isActive && g.id.Some? && g.id.value in FirstPage(AppIds(page.body))
    ensures forall i, j :: 0 <= i < j < |r| ==> r[i].id != r[j].id
    ensures page.Fetched? ==>
              forall id :: id in FirstPage(AppIds(page.body)) && GameDetails(id, details(id), now).Some? ==>
                GameDetails(id, details(id), now).value in r
    ensures page.Fetched? ==> r == DetailsList(FirstPage(AppIds(page.body)), details, now)
  {
    match page
    case Failed => []
    case Fetched(html) =>
      FirstPageDistinct(AppIds(html));
      DetailsList(FirstPage(AppIds(html)), details, now)
  }

  /** The first ten of the scraped ids are still pairwise distinct. */
  lemma FirstPageDistinct(appIds: seq<string>)
    requires forall i, j :: 0 <= i < j < |appIds| ==> appIds[i] != appIds[j]
    ensures forall i, j :: 0 <= i < j < |FirstPage(appIds)| ==> FirstPage(appIds)[i] != FirstPage(appIds)[j]
  {
  }

  /** `parseFreeGamesFromPage`: details for at most the first ten scraped
      app ids, the non-null ones in order. */
  method ParseFreeGamesFromPage(page: Fetch<string>, details: string -> Fetch<Option<AppDetails>>, now: Timestamp)
    returns (games: seq<Item>)
    ensures games == PageGames(page, details, now)
  {
    games := [];
    if page.Fetched? {
      var appIds := ExtractAppIds(page.body);
      var ids := FirstPage(appIds);
      for i := 0 to |ids|
        invariant games == DetailsList(ids[..i], details, now)
      {
        DetailsListStep(ids, i, details, now);
        var gameDetails := GameDetails(ids[i], details(ids[i]), now);
        if gameDetails.Some? {
          games := games + [gameDetails.value];
        }
      }
      assert ids[..|ids|] == ids;
    }
  }

  // ---------------------------------------------------------------------
  // Merge

  /** The de-duplication key: the raw id, absent ids included. */
  function RawId(g: Item): Option<string>
  {
    g.id
  }

  /** `removeDuplicates`: keeps the first item seen with each id. */
  method RemoveDuplicates(games: seq<Item>) returns (unique: seq<Item>)
    ensures unique == Distinct(games, RawId)
    ensures IsSubsequence(unique, games)
    ensures KeysOf(unique, RawId) == KeysOf(games, RawId)
    ensures forall i, j :: 0 <= i < j < |unique| ==> unique[i].id != unique[j].id
    ensures forall g :: g in unique ==> g.id in KeysOf(games, RawId) && g == FirstWith(games, RawId, g.id)
  {
    var seen: set<Option<string>> := {};
    unique := [];
    for i := 0 to |games|
      invariant seen == KeysOf(games[..i], RawId)
      invariant unique == Distinct(games[..i], RawId)
    {
      assert games[..i + 1][..i] == games[..i];
      KeysOfAppend(games[..i], games[i], RawId);
      assert games[..i + 1] == games[..i] + [games[i]];
      if games[i].id !in seen {
        unique := unique + [games[i]];
      }
      seen := seen + {games[i].id};
    }
    assert games[..|games|] == games;
    DistinctSpec(games, RawId);
  }

  /** What `getFreeGames` returns: API items, then page items,
      de-duplicated by id; a failed API request yields nothing. */
  function FreeGames(
    featured: Fetch<Option<seq<Special>>>,
    page: Fetch<string>,
    details: string -> Fetch<Option<AppDetails>>,
    now: Timestamp): seq<Item>
  {
    match featured
    case Failed => []
    case Fetched(items) => Distinct(ApiGames(items, now) + PageGames(page, details, now), RawId)
  }

  /** `getFreeGames`, built from the three steps above. */
  method GetFreeGames(
    featured: Fetch<Option<seq<Special>>>,
    page: Fetch<string>,
    details: string -> Fetch<Option<AppDetails>>,
    now: Timestamp)
    returns (games: seq<Item>)
    ensures games == FreeGames(featured, page, details, now)
    ensures featured.Failed? ==> games == []
    ensures featured.Fetched? ==>
              forall g :: g in games && g.id in KeysOf(ApiGames(featured.body, now), RawId) ==>
                g in ApiGames(featured.body, now)
    ensures forall i, j :: 0 <= i < j < |games| ==> games[i].id != games[j].id
  {
    if featured.Failed? {
      return [];
    }
    var fromApi := ParseFreeGamesFromAPI(featured.body, now);
    var fromPage := ParseFreeGamesFromPage(page, details, now);
    games := RemoveDuplicates(fromApi + fromPage);
    DistinctPrefersFirst(fromApi, fromPage, RawId);
  }
}
