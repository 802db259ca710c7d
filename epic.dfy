/** The Epic Games fetcher's normalisation rules (lib/epic-games.js): the
    "free and promoted" filter over the catalogue elements, the price and
    promotion-window extraction, the store-link fallback chain and the
    image preference order. The HTTP response is an input. */
module Epic {
  import opened Items
  import opened Seqs

  /** One entry of a `promotionalOffers` list. */
  datatype Offer = Offer(startDate: Timestamp, endDate: Timestamp)

  /** An element of `promotions.promotionalOffers` (or of the upcoming
      list): a group holding its own `promotionalOffers`, `None` when the
      group or its list is missing. */
  datatype OfferGroup = OfferGroup(promotionalOffers: Option<seq<Offer>>)

  datatype Promotions = Promotions(
    promotionalOffers: Option<seq<OfferGroup>>,
    upcomingPromotionalOffers: Option<seq<OfferGroup>>)

  /** `price.totalPrice`; `fmtOriginalPrice` is `fmtPrice.originalPrice`. */
  datatype TotalPrice = TotalPrice(discountPrice: Option<int>, originalPrice: Option<int>, fmtOriginalPrice: Option<string>)

  datatype Mapping = Mapping(pageSlug: Option<string>)

  datatype KeyImage = KeyImage(kind: string, url: Option<string>)

  /** One element of `data.Catalog.searchStore.elements`. */
  datatype Element = Element(
    id: Option<string>,
    title: string,
    description: string,
    price: Option<TotalPrice>,
    promotions: Option<Promotions>,
    offerMappings: Option<seq<Mapping>>,
    catalogMappings: Option<seq<Mapping>>,
    productSlug: Option<string>,
    keyImages: Option<seq<KeyImage>>)

  // ---------------------------------------------------------------------
  // The filter

  /** `list?.length > 0`. */
  predicate NonEmpty<T>(list: Option<seq<T>>)
  {
    list.Some? && |list.value| > 0
  }

  /** The `getFreeGames` filter: discounted to exactly 0 and carrying a
      current or an upcoming promotion list. */
  predicate IsFreePromoted(e: Element)
  {
    && e.price.Some?
    && e.price.value.discountPrice == Some(0)
    && e.promotions.Some?
    && (NonEmpty(e.promotions.value.promotionalOffers) || NonEmpty(e.promotions.value.upcomingPromotionalOffers))
  }

  // ---------------------------------------------------------------------
  // Price

  datatype PriceData = PriceData(originalPrice: Option<string>, hasMeaningfulPrice: bool)

  /** The formatted prices that mean "nothing to strike through". */
  predicate IsZeroLabel(text: string)
  {
    text == "" || text == "0" || text == "0₴"
  }

  /** `getPriceData`. */
  function GetPriceData(price: Option<TotalPrice>): (r: PriceData)
    ensures price.None? ==> r == PriceData(None, false)
    ensures price.Some? ==> r.originalPrice.Some?
    ensures price.Some? && !Truthy(price.value.fmtOriginalPrice) ==> r.originalPrice == Some("")
    ensures price.Some? && Truthy(price.value.fmtOriginalPrice) ==> r.originalPrice == price.value.fmtOriginalPrice
    ensures r.hasMeaningfulPrice <==>
              && price.Some?
              && price.value.originalPrice.Some? && price.value.originalPrice.value > 0
              && !IsZeroLabel(r.originalPrice.value)
  {
    match price
    case None => PriceData(None, false)
    case Some(info) =>
      var text := if Truthy(info.fmtOriginalPrice) then info.fmtOriginalPrice.value else "";
      var amount := info.originalPrice;
      PriceData(Some(text), amount.Some? && amount.value > 0 && !IsZeroLabel(text))
  }

  /** A meaningful price always carries a text that shows a real amount. */
  lemma MeaningfulPriceIsShowable(price: Option<TotalPrice>)
    ensures GetPriceData(price).hasMeaningfulPrice ==>
              && price.Some?
              && GetPriceData(price).originalPrice == price.value.fmtOriginalPrice
              && GetPriceData(price).originalPrice.value !in {"", "0", "0₴"}
  {
  }

  // ---------------------------------------------------------------------
  // Promotion window

  datatype PromotionInfo = PromotionInfo(startDate: Option<Timestamp>, endDate: Option<Timestamp>, isActive: bool)

  /** `groups?.[0]?.promotionalOffers?.[0]`, guarded by both length tests. */
  function FirstOffer(groups: Option<seq<OfferGroup>>): (r: Option<Offer>)
    ensures r.Some? ==> NonEmpty(groups) && NonEmpty(groups.value[0].promotionalOffers)
  {
    if NonEmpty(groups) && NonEmpty(groups.value[0].promotionalOffers)
    then Some(groups.value[0].promotionalOffers.value[0])
    else None
  }

  function CurrentOffer(p: Option<Promotions>): Option<Offer>
  {
    if p.Some? then FirstOffer(p.value.promotionalOffers) else None
  }

  function UpcomingOffer(p: Option<Promotions>): Option<Offer>
  {
    if p.Some? then FirstOffer(p.value.upcomingPromotionalOffers) else None
  }

  /** The promotion window read by priority: an upcoming offer that has
      not started yet wins and is inactive; otherwise the current offer,
      active exactly while `now` lies in its closed window; otherwise no
      window. */
  function Promotion(p: Option<Promotions>, now: Timestamp): (r: PromotionInfo)
    ensures r.isActive ==>
              && r.startDate.Some? && r.endDate.Some?
              && r.startDate.value <= now <= r.endDate.value
              && CurrentOffer(p) == Some(Offer(r.startDate.value, r.endDate.value))
    ensures r.startDate.None? <==> r.endDate.None?
    ensures r.startDate.None? <==>
              CurrentOffer(p).None? && !(UpcomingOffer(p).Some? && now < UpcomingOffer(p).value.startDate)
    ensures UpcomingOffer(p).Some? && now < UpcomingOffer(p).value.startDate ==>
              r == PromotionInfo(Some(UpcomingOffer(p).value.startDate), Some(UpcomingOffer(p).value.endDate), false)
    ensures !(UpcomingOffer(p).Some? && now < UpcomingOffer(p).value.startDate) && CurrentOffer(p).Some? ==>
              && r.startDate == Some(CurrentOffer(p).value.startDate)
              && r.endDate == Some(CurrentOffer(p).value.endDate)
              && (r.isActive <==> CurrentOffer(p).value.startDate <= now <= CurrentOffer(p).value.endDate)
  {
    var current := CurrentOffer(p);
    var upcoming := UpcomingOffer(p);
    if upcoming.Some? && now < upcoming.value.startDate then
      PromotionInfo(Some(upcoming.value.startDate), Some(upcoming.value.endDate), false)
    else if current.Some? then
      PromotionInfo(Some(current.value.startDate), Some(current.value.endDate),
                    current.value.startDate <= now <= current.value.endDate)
    else
      PromotionInfo(None, None, false)
  }

  /** `getPromotionData`: the current offer sets the window, then an
      upcoming offer that has not started overwrites it. */
  method GetPromotionData(promotions: Option<Promotions>, now: Timestamp)
    returns (startDate: Option<Timestamp>, endDate: Option<Timestamp>, isActive: bool)
    ensures PromotionInfo(startDate, endDate, isActive) == Promotion(promotions, now)
    ensures isActive ==> startDate.Some? && endDate.Some? && startDate.value <= now <= endDate.value
  {
    startDate, endDate, isActive := None, None, false;

    var currentOffers := if promotions.Some? then promotions.value.promotionalOffers else None;
    if NonEmpty(currentOffers) {
      var offers := currentOffers.value[0].promotionalOffers;
      if NonEmpty(offers) {
        startDate := Some(offers.value[0].startDate);
        endDate := Some(offers.value[0].endDate);
        isActive := startDate.value <= now && now <= endDate.value;
      }
    }

    var upcomingOffers := if promotions.Some? then promotions.value.upcomingPromotionalOffers else None;
    if NonEmpty(upcomingOffers) {
      var offers := upcomingOffers.value[0].promotionalOffers;
      if NonEmpty(offers) {
        var upcomingStartDate := offers.value[0].startDate;
        if now < upcomingStartDate {
          startDate := Some(upcomingStartDate);
          endDate := Some(offers.value[0].endDate);
          isActive := false;
        }
      }
    }
  }

  // ---------------------------------------------------------------------
  // Store link

  datatype StoreLink = ProductPage(slug: string) | Search(query: string)

  const ProductPageUrl := "https://store.epicgames.com/uk/p/"
  const SearchUrl := "https://store.epicgames.com/uk/search?q="

  /** The link as a URL; the search query is not percent-encoded here. */
  function LinkText(link: StoreLink): string
  {
    match link
    case ProductPage(slug) => ProductPageUrl + slug
    case Search(query) => SearchUrl + query
  }

  /** `mappings?.[0]?.pageSlug` when the list is non-empty. */
  function FirstSlug(mappings: Option<seq<Mapping>>): Option<string>
  {
    if NonEmpty(mappings) then mappings.value[0].pageSlug else None
  }

  /** `s.includes(t)`. */
  predicate Contains(s: string, t: string)
    decreases |s|
  {
    |t| <= |s| && (s[..|t|] == t || (|s| > 0 && Contains(s[1..], t)))
  }

  lemma {:induction false} ContainsAt(s: string, t: string, i: nat)
    requires i + |t| <= |s| && s[i..i + |t|] == t
    ensures Contains(s, t)
    decreases i
  {
    if i > 0 {
      assert s[1..][i - 1..i - 1 + |t|] == s[i..i + |t|];
      ContainsAt(s[1..], t, i - 1);
    }
  }

  /** `t` occurs in `s` starting at position `i`. */
  predicate OccursAt(s: string, t: string, i: nat)
  {
    i + |t| <= |s| && s[i..i + |t|] == t
  }

  /** `Contains` finds `t` at some position of `s`. */
  lemma {:induction false} ContainsFound(s: string, t: string) returns (i: nat)
    requires Contains(s, t)
    ensures i + |t| <= |s| && s[i..i + |t|] == t
    decreases |s|
  {
    if s[..|t|] == t {
      i := 0;
    } else {
      var k := ContainsFound(s[1..], t);
      assert s[1..][k..k + |t|] == s[k + 1..k + 1 + |t|];
      i := k + 1;
    }
  }

  /** `Contains` is `String.prototype.includes`: it holds exactly when `t`
      occurs at some position of `s`. */
  lemma ContainsIsIncludes(s: string, t: string)
    ensures Contains(s, t) <==> exists i: nat :: OccursAt(s, t, i)
  {
    if Contains(s, t) {
      var i := ContainsFound(s, t);
      assert OccursAt(s, t, i);
    }
    forall i: nat | OccursAt(s, t, i)
      ensures Contains(s, t)
    {
      ContainsAt(s, t, i);
    }
  }

  /** `s` is `-dddd-dd-dd`. */
  predicate IsDateSuffix(s: string)
  {
    && |s| == 11
    && s[0] == '-' && s[5] == '-' && s[8] == '-'
    && IsDigit(s[1]) && IsDigit(s[2]) && IsDigit(s[3]) && IsDigit(s[4])
    && IsDigit(s[6]) && IsDigit(s[7]) && IsDigit(s[9]) && IsDigit(s[10])
  }

  /** `slug.replace(/-\d{4}-\d{2}-\d{2}$/, "")`: the pattern is anchored at
      the end and has a fixed length, so it can match in one place only. */
  function StripDateSuffix(slug: string): (r: string)
    ensures slug == r || (|slug| >= 11 && r == slug[..|slug| - 11] && IsDateSuffix(slug[|slug| - 11..]))
    ensures r == slug <==> !(|slug| >= 11 && IsDateSuffix(slug[|slug| - 11..]))
  {
    if |slug| >= 11 && IsDateSuffix(slug[|slug| - 11..]) then slug[..|slug| - 11] else slug
  }

  /** `getGameUrl`: the first truthy offer-mapping slug, else the first
      truthy catalogue-mapping slug, else the product slug without a
      trailing date unless it contains `/home`, else a title search. */
  function GetGameUrl(e: Element): (r: StoreLink)
    ensures Truthy(FirstSlug(e.offerMappings)) ==> r == ProductPage(FirstSlug(e.offerMappings).value)
    ensures !Truthy(FirstSlug(e.offerMappings)) && Truthy(FirstSlug(e.catalogMappings)) ==>
              r == ProductPage(FirstSlug(e.catalogMappings).value)
    ensures r.Search? <==>
              && !Truthy(FirstSlug(e.offerMappings))
              && !Truthy(FirstSlug(e.catalogMappings))
              && (!Truthy(e.productSlug) || Contains(e.productSlug.value, "/home"))
    ensures r.Search? ==> r.query == e.title
  {
    var offerSlug := FirstSlug(e.offerMappings);
    var catalogSlug := FirstSlug(e.catalogMappings);
    if Truthy(offerSlug) then ProductPage(offerSlug.value)
    else if Truthy(catalogSlug) then ProductPage(catalogSlug.value)
    else if Truthy(e.productSlug) && !Contains(e.productSlug.value, "/home") then
      ProductPage(StripDateSuffix(e.productSlug.value))
    else Search(e.title)
  }

  /** A product slug is used only without its trailing date, and only
      when no mapping supplied a slug. */
  lemma ProductSlugFallback(e: Element)
    requires !Truthy(FirstSlug(e.offerMappings)) && !Truthy(FirstSlug(e.catalogMappings))
    requires Truthy(e.productSlug) && !Contains(e.productSlug.value, "/home")
    ensures GetGameUrl(e) == ProductPage(StripDateSuffix(e.productSlug.value))
    ensures |GetGameUrl(e).slug| == |e.productSlug.value| || |GetGameUrl(e).slug| == |e.productSlug.value| - 11
  {
  }

  // ---------------------------------------------------------------------
  // Image

  /** The index `images.findIndex(img => img.type === kind)` reports,
      with `|images|` for "not found". */
  function FindKindIndex(images: seq<KeyImage>, kind: string): (i: nat)
    ensures i <= |images|
    ensures i < |images| ==> images[i].kind == kind
    ensures forall j :: 0 <= j < i ==> images[j].kind != kind
  {
    if images == [] then 0
    else if images[0].kind == kind then 0
    else 1 + FindKindIndex(images[1..], kind)
  }

  /** `images.find(img => img.type === kind)`. */
  function FindKind(images: seq<KeyImage>, kind: string): (r: Option<KeyImage>)
    ensures r.Some? ==> r.value in images && r.value.kind == kind
    ensures r.Some? ==>
              exists i :: 0 <= i < |images| && images[i] == r.value && (forall j :: 0 <= j < i ==> images[j].kind != kind)
    ensures r.None? ==> forall img :: img in images ==> img.kind != kind
  {
    var i := FindKindIndex(images, kind);
    if i < |images| then Some(images[i]) else None
  }

  /** The url of `img`, when it is truthy. */
  function UrlOf(img: Option<KeyImage>): Option<string>
  {
    if img.Some? && Truthy(img.value.url) then img.value.url else None
  }

  /** `getGameImage`: the first `Thumbnail`'s url, else the first
      `OfferImageWide`'s url, else the first image's url. */
  function GetGameImage(keyImages: Option<seq<KeyImage>>): (r: Option<string>)
    ensures r.Some? ==> keyImages.Some? && exists img :: img in keyImages.value && img.url == r
    ensures keyImages.Some? && UrlOf(FindKind(keyImages.value, "Thumbnail")).Some? ==>
              r == FindKind(keyImages.value, "Thumbnail").value.url
    ensures keyImages.Some? && UrlOf(FindKind(keyImages.value, "Thumbnail")).None? &&
            UrlOf(FindKind(keyImages.value, "OfferImageWide")).Some? ==>
              r == FindKind(keyImages.value, "OfferImageWide").value.url
    ensures keyImages.Some? && UrlOf(FindKind(keyImages.value, "Thumbnail")).None? &&
            UrlOf(FindKind(keyImages.value, "OfferImageWide")).None? ==>
              r == (if keyImages.value == [] then None else keyImages.value[0].url)
    ensures keyImages.None? ==> r.None?
  {
    if keyImages.None? then None
    else
      var images := keyImages.value;
      var thumbnail := UrlOf(FindKind(images, "Thumbnail"));
      var wide := UrlOf(FindKind(images, "OfferImageWide"));
      if thumbnail.Some? then thumbnail
      else if wide.Some? then wide
      else if images != [] then
        assert images[0] in images;
        images[0].url
      else None
  }

  // ---------------------------------------------------------------------
  // The pipeline

  /** The item `getFreeGames` maps a kept element to. */
  function ToItem(e: Element, now: Timestamp): (g: Item)
    ensures g.id == e.id && g.title == e.title
    ensures g.isActive == Promotion(e.promotions, now).isActive
    ensures g.startDate == Promotion(e.promotions, now).startDate && g.endDate == Promotion(e.promotions, now).endDate
    ensures g.originalPrice == GetPriceData(e.price).originalPrice
    ensures g.hasMeaningfulPrice == GetPriceData(e.price).hasMeaningfulPrice
    ensures g.url == LinkText(GetGameUrl(e)) && g.image == GetGameImage(e.keyImages)
  {
    var promotion := Promotion(e.promotions, now);
    var priceData := GetPriceData(e.price);
    Item(
      id := e.id,
      title := e.title,
      description := e.description,
      url := LinkText(GetGameUrl(e)),
      originalPrice := priceData.originalPrice,
      hasMeaningfulPrice := priceData.hasMeaningfulPrice,
      startDate := promotion.startDate,
      endDate := promotion.endDate,
      image := GetGameImage(e.keyImages),
      platform := "Epic Games",
      isActive := promotion.isActive)
  }

  function ToItems(elements: seq<Element>, now: Timestamp): (r: seq<Item>)
    ensures |r| == |elements|
    ensures forall i :: 0 <= i < |r| ==> r[i] == ToItem(elements[i], now)
  {
    seq(|elements|, i requires 0 <= i < |elements| => ToItem(elements[i], now))
  }

  /** `getFreeGames`: the free promoted elements, in order, each mapped to
      an item; a failed request yields nothing, and a response without the
      element list (`None`) yields nothing too. */
  function GetFreeGames(response: Fetch<Option<seq<Element>>>, now: Timestamp): (r: seq<Item>)
    ensures response.Failed? || response.body.None? ==> r == []
    ensures response.Fetched? && response.body.Some? ==>
              && |r| == |Filter(response.body.value, IsFreePromoted)|
              && forall i :: 0 <= i < |r| ==> r[i] == ToItem(Filter(response.body.value, IsFreePromoted)[i], now)
  {
    match response
    case Failed => []
    case Fetched(elements) =>
      if elements.None? then [] else ToItems(Filter(elements.value, IsFreePromoted), now)
  }

  /** Every active Epic item is inside its own window at `now`, and every
      item comes from a free promoted element with the same id. */
  lemma FreeGamesAreInWindow(response: Fetch<Option<seq<Element>>>, now: Timestamp)
    requires response.Fetched? && response.body.Some?
    ensures forall g :: g in GetFreeGames(response, now) && g.isActive ==>
              g.startDate.Some? && g.endDate.Some? && g.startDate.value <= now <= g.endDate.value
    ensures forall g :: g in GetFreeGames(response, now) ==>
              exists e :: e in response.body.value && IsFreePromoted(e) && e.id == g.id
  {
    var kept := Filter(response.body.value, IsFreePromoted);
    var r := GetFreeGames(response, now);
    forall g | g in r
      ensures g.isActive ==> g.startDate.Some? && g.endDate.Some? && g.startDate.value <= now <= g.endDate.value
      ensures exists e :: e in response.body.value && IsFreePromoted(e) && e.id == g.id
    {
      var i :| 0 <= i < |r| && r[i] == g;
      assert kept[i] in kept;
    }
  }
}
