# Storefront views of a party-rental shop, in Dafny

This project models the logic inside the React views of a party-rental
storefront. The views are written in TypeScript. They turn API records into
what the page shows, filter and sort the catalogue, build quote requests, and
keep their own small state machines:

- **AllProducts** (`catalog.dfy`, module `Catalog`): the catalogue page.
  - API records are normalised into products: tags, category, description fallback.
  - The sidebar's category list is distinct and sorted.
  - The grid is filtered by category (ignoring case) and by a name search.
  - The selected category round-trips through the `?tag=` query parameter.
  - The favourites set.
- **MakeParty** (`party.dfy`, module `Party`): the party-builder wizard.
  - Category derivation for loose items: `categoria`, then JSON-looking or comma-separated `tags`, then "Outros".
  - The `map` over the response, which fails as a whole when one record throws.
  - The seventeen steps and their items.
  - The next, previous and restart buttons.
- **Cart** (`quote.dfy`, module `Quote`): the cart sheet.
  - The WhatsApp quote message and link.
  - The header badge and description.
  - The image fallback.
  - The requests the minus, plus and trash buttons send to the cart store.
- **ProductList** (`showcase.dfy`, module `Showcase`): the home-page showcase of six fixed products.
  - Its category filter.
  - The rating stars.
  - Favourites and the add-to-cart object.
- **HeroCarousel** (`carousel.dfy`, module `Carousel`): the four-slide carousel.
  - Browser intervals are a set of scheduled handles.
  - The play/pause button and the hover pause.
  - The arrows and the indicator dots.
- **InstagramFeed** (`feed.dfy`, module `Feed`): the Instagram section.
  - The mock list.
  - The 30-minute `localStorage` cache.
  - The transform of API posts.
  - The fallbacks when the request fails.
  - `refreshFeed`.
- **ProductDetailPage** (`detail.dfy`, module `Detail`): the product page.
  - `galeria` is normalised into a gallery.
  - The category falls back to "Geral".
  - The main image and the thumbnails.
  - The add-to-cart object.

Shared modules:

- `Text` models the JavaScript string built-ins the views call:
  - `trim`, `toLowerCase`, `split`, `join` and `includes`;
  - number to string, and `parseInt`;
  - the default comparison of `Array.prototype.sort`.
- `Seqs` models `filter` and a `map` whose callback may throw.
- `Json` holds the values `JSON.parse` can return and their truthiness.
- `Favorites` is the toggle shared by two pages.
- `CartApi` holds the shapes handed to the cart store.
- `Wrappers` holds `Option`.

The model takes the source's own form:

- Transformations are functions with lemmas about them.
- Component state is a `class` whose methods update its fields.
- Where the source loops or reassigns variables, the model has a method proved equal to a specification function:
  - `AllTags`;
  - `DeriveCategory`, `FormatOne` and `FormatItems`;
  - `NormaliseGaleria`.

Foreign functions are parameters, so every member that needs one states its assumption explicitly:

- `JSON.parse` is `string -> Option<Json>`, where `None` is the thrown `SyntaxError`;
- `JSON.stringify` for post lists;
- `encodeURIComponent`.

The same goes for the clock, the HTTP outcome and the query parameters: they are parameters too.

Where the written design and the code disagree, the code is followed. The
design describes catalogue tags as trimmed, non-empty strings. The code
keeps a tag array exactly as delivered. It splits a tag string at commas and
trims each piece, but keeps empty pieces. So `"a,,b"` gives `["a", "", "b"]`,
and the category of `",x"` is `""`. `Catalog.NormalizeTags` and
`Catalog.TextCategory` state what the code does.

## Model

| member | source | states |
|---|---|---|
| Catalog.NormalizeTags | src/components/AllProducts.tsx:53-56 | an array is kept as delivered, a missing field gives no tags, a string gives one trimmed piece per comma plus one, none containing a comma or surrounded by white space |
| Catalog.TagTextRoundTrip | src/components/AllProducts.tsx:55-56 | a tag string without white space is recovered by joining its tags with commas |
| Catalog.TagTextPieces | src/components/AllProducts.tsx:55-56 | a tag string written as comma-separated segments gives exactly those segments, each trimmed, in order |
| Catalog.PrimaryCategory | src/components/AllProducts.tsx:64 | the category is the first tag, or "Outros" when there are none |
| Catalog.FormatProduct | src/components/AllProducts.tsx:52-66 | id, name, image kept; tags normalised; category from the tags; an absent or empty description replaced by the fixed text; always popular |
| Catalog.FormatProducts | src/components/AllProducts.tsx:52-67 | one product per record, in order, each formatted |
| Catalog.TextCategory | src/components/AllProducts.tsx:56-64 | for a tag string the category is the trimmed text before its first comma |
| Catalog.CategoryComesFromTags | src/components/AllProducts.tsx:64 | the category is the first tag, or the fallback exactly when there are no tags |
| Catalog.AllTags | src/components/AllProducts.tsx:80-86 | the list holds exactly the distinct non-empty categories of the products, strictly sorted, without repetitions |
| Catalog.MatchesTag | src/components/AllProducts.tsx:92-93 | no selection passes every product; with a selection, a product passes exactly when its category has the tag's length and agrees with it letter by letter once lowered |
| Catalog.SameLettersIgnoreCase | src/components/AllProducts.tsx:93 | comparing the lowered texts is comparing them letter by letter, lowered |
| Catalog.MatchesSearch | src/components/AllProducts.tsx:95-96 | the lowered search occurs at some position of the lowered name; so it is no longer than the name, and the empty search matches every product |
| Catalog.FilteredProducts | src/components/AllProducts.tsx:89-98 | an order-preserving subsequence of the catalogue holding exactly the products whose category equals the tag ignoring case (or any, with no tag) and whose lower-cased name includes the lower-cased search, each as often as in the catalogue |
| Catalog.NoFilterShowsAll | src/components/AllProducts.tsx:89-98 | with no tag and an empty search every product is shown, in order |
| Catalog.CatalogCandidate | src/components/AllProducts.tsx:110-117 | the cart object carries the product's id, name, description, image and category and no price |
| Catalog.InitialTag | src/components/AllProducts.tsx:33-38 | the initial selection is the `tag` parameter when present and non-empty, none otherwise |
| Catalog.TagParams | src/components/AllProducts.tsx:121-128 | a non-empty tag is written as the only query parameter; none or an empty tag clears the parameters |
| Catalog.TagParamsRoundTrip | src/components/AllProducts.tsx:33-38 | reading back the parameters written for a selection restores it (an empty tag reads back as none) |
| Catalog.CatalogPage.constructor | src/components/AllProducts.tsx:32-39 | empty list, empty search, loading, no favourites, selection from the URL |
| Catalog.CatalogPage.FinishLoading | src/components/AllProducts.tsx:45-77 | the formatted response on success, an empty list on failure; loading ends either way |
| Catalog.CatalogPage.SetSearchTerm | src/components/AllProducts.tsx:164 | the search becomes the typed text |
| Catalog.CatalogPage.HandleTagSelect | src/components/AllProducts.tsx:121-128 | the selection becomes the tag and the URL parameters become `TagParams` of it |
| Catalog.CatalogPage.ToggleFavorite | src/components/AllProducts.tsx:101-108 | the favourites become the toggle of the old set |
| Catalog.CatalogPage.Visible | src/components/AllProducts.tsx:89-98 | the grid is a subsequence of the loaded products holding exactly those that pass both filters, each as often as loaded |
| Favorites.Toggle | src/components/AllProducts.tsx:101-108 | only the toggled id changes membership, and it flips |
| Favorites.ToggleTwice | src/components/ProductList.tsx:86-96 | toggling an id twice restores the set |
| Favorites.ToggleCommutes | src/components/ProductList.tsx:86-96 | toggles of two ids commute |
| Party.TagsValue | src/components/MakeParty.tsx:57 | the field is a string only for tag text, an array of the tags for a list, and falsy exactly when missing or empty text |
| Party.LooksLikeJson | src/components/MakeParty.tsx:59 | the text starts with `[`, or with `"` followed by `[` |
| Party.TagsData | src/components/MakeParty.tsx:57-61 | only JSON-looking tag text is replaced, by what it parses to; text that is not JSON-looking or does not parse stays a string; other fields stay as they are |
| Party.HasCategoria | src/components/MakeParty.tsx:64 | there is a `categoria` with some character that is not white space |
| Party.TagCategory | src/components/MakeParty.tsx:63-67 | the derivation throws exactly when the value is a non-empty array whose first element is not a string; a falsy value leaves "Outros" |
| Party.FinalCategory | src/components/MakeParty.tsx:70 | the final category is the trimmed raw one, or "Outros" when that is blank; never empty, already trimmed |
| Party.PartyCategory | src/components/MakeParty.tsx:56-70 | a non-blank `categoria` gives its trim; otherwise the tags decide, and the derivation fails exactly when the tags' first array element is not a string; a result is non-empty and trimmed |
| Party.DeriveCategory | src/components/MakeParty.tsx:56-70 | the step-by-step derivation computes `PartyCategory` |
| Party.CategoriaTakesPrecedence | src/components/MakeParty.tsx:64 | with a non-blank `categoria` the tags do not matter |
| Party.TagListCategory | src/components/MakeParty.tsx:65-66 | without `categoria`, a non-empty tag list gives the final category of its first element |
| Party.FinalCategoryOfTrim | src/components/MakeParty.tsx:66-70 | trimming before the final step changes nothing |
| Party.TagTextCategory | src/components/MakeParty.tsx:59-67 | without `categoria`, a tag string that does not look like JSON, or that does not parse, gives the final category of its text before the first comma |
| Party.ParsedArrayCategory | src/components/MakeParty.tsx:59-70 | without `categoria`, tag text that parses to an array gives the final category of its first element when that is a string, "Outros" when the array is empty, and throws otherwise |
| Party.ParsedStringCategory | src/components/MakeParty.tsx:59-70 | without `categoria`, tag text that parses to a string gives the final category of that string's first comma-separated piece |
| Party.NoTagsCategory | src/components/MakeParty.tsx:56-70 | without `categoria`, missing tags, empty tag text, an empty list, or tag text parsing to neither an array nor a string gives "Outros" |
| Party.FallbackIsFinal | src/components/MakeParty.tsx:56-70 | "Outros" is unchanged by the final step |
| Party.TextProposal | src/components/MakeParty.tsx:67-70 | a tag string always proposes a category, ending as its first comma-separated piece does |
| Party.FormatItem | src/components/MakeParty.tsx:55-78 | a record formats exactly when its category can be derived; id, name and image are kept, a missing description becomes the empty text, and the category is `PartyCategory` |
| Party.FormatOne | src/components/MakeParty.tsx:55-78 | the callback builds one record as `FormatItem` states, or fails when its derivation throws |
| Party.FormatAll | src/components/MakeParty.tsx:55-79 | the `map` succeeds exactly when every record formats, and then holds the formatted records in order |
| Party.FormatItems | src/components/MakeParty.tsx:55-79 | the loader's loop computes `FormatAll` |
| Party.ItemsOfStep | src/components/MakeParty.tsx:99 | a subsequence of the items holding exactly those whose category equals the step's name ignoring case, each as often as in the items |
| Party.PartyCandidate | src/components/MakeParty.tsx:116-123 | the cart object carries the item's id, name, description, image and category and no price |
| Party.PartyWizard.constructor | src/components/MakeParty.tsx:40-43 | no items, loading, first step, not finished |
| Party.PartyWizard.FinishLoading | src/components/MakeParty.tsx:48-93 | the items become the formatted response when the request succeeds and every record formats; otherwise they are unchanged; loading ends |
| Party.PartyWizard.CurrentStepItems | src/components/MakeParty.tsx:95-100 | nothing when finished, otherwise exactly the items of the current step, in order, each as often as in the items |
| Party.PartyWizard.NextLabel | src/components/MakeParty.tsx:173 | the next step's name, and "Finalizar" exactly at the last step |
| Party.PartyWizard.Next | src/components/MakeParty.tsx:102-106 | below the last step advance by one; at the last step finish and stay |
| Party.PartyWizard.Prev | src/components/MakeParty.tsx:108-114 | above the first step go back one and leave the finished screen; at the first step nothing changes |
| Party.PartyWizard.Restart | src/components/MakeParty.tsx:147 | back to the first step, not finished |
| Party.StepCount | src/components/MakeParty.tsx:16-20 | seventeen steps, the last one "Outros" |
| Party.WalkThrough | src/components/MakeParty.tsx:102-106 | seventeen presses of "next" from the start reach the finished screen on the last step |
| Quote.OrderLine | src/components/Cart.tsx:19-20 | a line starts with the quantity's text, which `parseInt` reads back, continues with "x " and ends with the name |
| Quote.OrderLines | src/components/Cart.tsx:19-21 | one line per cart item, in cart order |
| Quote.OrderLineInjective | src/components/Cart.tsx:20 | equal lines come from equal quantities and names |
| Quote.OrderLineSingleLine | src/components/Cart.tsx:20 | a line has a line break only where its name does |
| Quote.OrderList | src/components/Cart.tsx:19-21 | empty exactly for an empty cart; when no name breaks a line, splitting at the line breaks gives back one line per item in cart order |
| Quote.Message | src/components/Cart.tsx:23 | the message is the fixed greeting, the order list and the fixed closing |
| Quote.WhatsAppUrl | src/components/Cart.tsx:17-25 | the link is the `wa.me` address of the shop's number followed by the encoded message |
| Quote.UrlDeterminesOrder | src/components/Cart.tsx:16-25 | with an injective encoder, equal links mean equal quantities and names, line by line |
| Quote.ShowBadge | src/components/Cart.tsx:41 | for a count that is not negative the badge is drawn exactly when the description shown is not the empty-cart text |
| Quote.CartDescriptionAsWritten | src/components/Cart.tsx:53-55 | the empty-cart text exactly for zero; "1 item no seu orçamento" for one; otherwise the count followed by " itemns no seu orçamento", whose `parseInt` gives the count |
| Quote.CartDescription | src/components/Cart.tsx:53-55 | the empty-cart text exactly for zero; "1 item no seu orçamento" for one; otherwise the count followed by " itens no seu orçamento", whose `parseInt` gives the count |
| Quote.CartDescriptionAsWrittenMisspells | src/components/Cart.tsx:53-55 | for counts other than zero and one the written description reads "itemns" and differs from the intended one |
| Quote.CartDescriptionAsWrittenSingular | src/components/Cart.tsx:53-55 | for zero and one the written and the intended description agree |
| Quote.CartDescriptionPlural | src/components/Cart.tsx:55 | the plural wording is used exactly when the count is not one |
| Quote.BadgeAndDescriptionAgree | src/components/Cart.tsx:41-55 | with the corrected text too, the badge is drawn exactly when the description is not the empty-cart text |
| Quote.ShowEmptyState | src/components/Cart.tsx:59 | the empty-cart view is shown exactly when the quote would list no item |
| Quote.ItemImage | src/components/Cart.tsx:76 | the line's image, or the placeholder when it has none; never empty |
| Quote.Decrease | src/components/Cart.tsx:95 | asks the store for this line's quantity minus one |
| Quote.Increase | src/components/Cart.tsx:105 | asks the store for this line's quantity plus one |
| Quote.Remove | src/components/Cart.tsx:118 | asks the store to remove this line |
| Quote.DecreaseIncreaseCancel | src/components/Cart.tsx:95-105 | minus then plus, or plus then minus, asks for the original quantity |
| Showcase.ProductIds | src/components/ProductList.tsx:18-73 | six products with ids 1 to 6 in order |
| Showcase.ProductCategoriesListed | src/components/ProductList.tsx:18-80 | every product's category has a filter button, and none is "All" |
| Showcase.FilteredProducts | src/components/ProductList.tsx:82-84 | "All" shows the whole list; any other button an order-preserving subsequence holding exactly the products of that exact category |
| Showcase.EveryCategoryShowsSomething | src/components/ProductList.tsx:80-84 | every button other than "All" shows at least one product |
| Showcase.CartCandidate | src/components/ProductList.tsx:98-105 | the cart object carries the product's id, name, price, image and category and no description |
| Showcase.Stars | src/components/ProductList.tsx:185-189 | five stars, star `index` filled exactly when `index` is below the rating |
| Showcase.FilledPrefix | src/components/ProductList.tsx:185-189 | of the first n stars, the rating clamped to 0..n are filled |
| Showcase.FilledStars | src/components/ProductList.tsx:185-189 | for a rating from 0 to 5, exactly that many stars are filled |
| Showcase.ShowcasePage.constructor | src/components/ProductList.tsx:76-77 | "All" selected, no favourites |
| Showcase.ShowcasePage.SelectCategory | src/components/ProductList.tsx:126 | the selection becomes the pressed button |
| Showcase.ShowcasePage.ToggleFavorite | src/components/ProductList.tsx:86-96 | the favourites become the toggle of the old set |
| Showcase.ShowcasePage.Visible | src/components/ProductList.tsx:82-84 | the grid is a subsequence of the products: all of them for "All", otherwise exactly those of the selected category |
| Carousel.NextIndex | src/components/HeroCarousel.tsx:56 | the next slide index, wrapping from the last slide to the first |
| Carousel.PrevIndex | src/components/HeroCarousel.tsx:92 | the previous slide index, wrapping from the first slide to the last |
| Carousel.NextPrevInverse | src/components/HeroCarousel.tsx:85-92 | the previous of the next, and the next of the previous, is the slide itself |
| Carousel.AdvanceIsModular | src/components/HeroCarousel.tsx:55-57 | n ticks from slide i reach (i + n) mod 4; four ticks return to the start |
| Carousel.HeroCarousel.constructor | src/components/HeroCarousel.tsx:45-75 | slide 0, playing, not hovered, an interval scheduled, at most one interval |
| Carousel.HeroCarousel.StartTimer | src/components/HeroCarousel.tsx:51-58 | the held interval is cleared and a fresh one is the only one scheduled |
| Carousel.HeroCarousel.StopTimer | src/components/HeroCarousel.tsx:60-65 | no interval held or scheduled |
| Carousel.HeroCarousel.SyncTimer | src/components/HeroCarousel.tsx:67-75 | after the effect an interval is scheduled exactly while playing and not hovered |
| Carousel.HeroCarousel.Tick | src/components/HeroCarousel.tsx:55-57 | a scheduled interval advances the slide by one, any other leaves it; under the gating rule nothing moves while hovered |
| Carousel.HeroCarousel.TogglePlayPause | src/components/HeroCarousel.tsx:98-100 | playing flips and the gating rule holds again |
| Carousel.HeroCarousel.SetPaused | src/components/HeroCarousel.tsx:105-106 | a change of hover re-establishes the gating rule; no change leaves the timer alone |
| Carousel.HeroCarousel.RestartAsWritten | src/components/HeroCarousel.tsx:79-81 | whenever playing, the held interval is cleared and a fresh handle is the only one scheduled; when not playing the timer is unchanged (hovered or not) |
| Carousel.HeroCarousel.Restart | src/components/HeroCarousel.tsx:79-81 | while playing and not hovered a fresh handle becomes the only scheduled interval; otherwise the timer is unchanged; the gating rule is kept |
| Carousel.HeroCarousel.NextSlideAsWritten | src/components/HeroCarousel.tsx:84-89 | the next slide; whenever playing a fresh handle becomes the only scheduled interval, hovered or not; when not playing the timer is unchanged |
| Carousel.HeroCarousel.PrevSlideAsWritten | src/components/HeroCarousel.tsx:91-96 | the previous slide; whenever playing a fresh handle becomes the only scheduled interval, hovered or not; when not playing the timer is unchanged |
| Carousel.HeroCarousel.GoToSlideAsWritten | src/components/HeroCarousel.tsx:77-82 | the chosen slide; whenever playing a fresh handle becomes the only scheduled interval, hovered or not; when not playing the timer is unchanged |
| Carousel.HeroCarousel.NextSlide | src/components/HeroCarousel.tsx:84-89 | the next slide; while playing and not hovered a fresh handle becomes the only scheduled interval, otherwise the timer is unchanged; the gating rule is kept |
| Carousel.HeroCarousel.PrevSlide | src/components/HeroCarousel.tsx:91-96 | the previous slide; while playing and not hovered a fresh handle becomes the only scheduled interval, otherwise the timer is unchanged; the gating rule is kept |
| Carousel.HeroCarousel.GoToSlide | src/components/HeroCarousel.tsx:77-82 | the chosen slide; while playing and not hovered a fresh handle becomes the only scheduled interval, otherwise the timer is unchanged; the gating rule is kept |
| Carousel.HoverThenArrowAsWritten | src/components/HeroCarousel.tsx:84-89 | hover then an arrow leaves an interval running while paused, and its tick moves the slide |
| Carousel.HoverThenArrow | src/components/HeroCarousel.tsx:84-89 | with the corrected restart the same presses leave no interval, and the slide stays |
| Feed.GetItem | src/components/InstagramFeed.tsx:85-86 | the stored value of a key, or none exactly when the key is absent |
| Feed.StoreWrite | src/components/InstagramFeed.tsx:120-121 | both cache keys are written and every other key is kept |
| Feed.StoreClear | src/components/InstagramFeed.tsx:137-138 | both cache keys are removed and every other key is kept |
| Feed.CacheRoundTrip | src/components/InstagramFeed.tsx:85-95 | what a successful fetch writes is used by a fetch within thirty minutes, showing the same posts and reading back the write time |
| Feed.CacheFresh | src/components/InstagramFeed.tsx:89-92 | fresh exactly when the time text parses and the current time is less than thirty minutes after it |
| Feed.UsesCache | src/components/InstagramFeed.tsx:85-92 | the cache branch is taken exactly when both keys hold non-empty text and the time is fresh |
| Feed.FreshnessWindow | src/components/InstagramFeed.tsx:89-92 | a cache written at t is fresh exactly before t plus thirty minutes |
| Feed.ClearedCacheUnused | src/components/InstagramFeed.tsx:135-139 | after the keys are removed the cache branch is not taken |
| Feed.OrElse | src/components/InstagramFeed.tsx:112-113 | a falsy field is replaced by its fallback, a truthy one kept |
| Feed.TransformPost | src/components/InstagramFeed.tsx:109-114 | id kept; the media URL when truthy else the image field; a truthy caption kept, otherwise the empty text; the permalink or "#", never empty |
| Feed.TransformPosts | src/components/InstagramFeed.tsx:109-114 | one post per API post, in order, each transformed |
| Feed.InstagramFeed.constructor | src/components/InstagramFeed.tsx:52-55 | the mock posts, not loading, no last fetch |
| Feed.InstagramFeed.FetchInstagramPosts | src/components/InstagramFeed.tsx:76-133 | no endpoint: the mock posts at the current time; a fresh cache: its posts and time, rejecting when its text does not parse; a successful request: the transformed posts, written to the cache; a failed one: the cached posts when there were some, else the mock posts |
| Feed.InstagramFeed.RefreshFeed | src/components/InstagramFeed.tsx:135-140 | with an endpoint the request is always made; a failure then shows the mock posts; the call never rejects |
| Detail.Category | src/components/ProductDetailPage.tsx:51 | truthy tags are the category, otherwise "Geral"; the category is always truthy |
| Detail.Length | src/components/ProductDetailPage.tsx:54 | the length of an array or string gallery, and 0 for values without length |
| Detail.First | src/components/ProductDetailPage.tsx:55 | the first element of an array, or the first character of a string |
| Detail.CartImage | src/components/ProductDetailPage.tsx:77 | the first picture when there is one, the empty text otherwise |
| Detail.ShowThumbnails | src/components/ProductDetailPage.tsx:109 | thumbnails are drawn exactly when the gallery's length is above one (for an array, more than one picture); then there is a first picture, and it is the cart's image |
| Detail.Gallery | src/components/ProductDetailPage.tsx:37-49 | missing or falsy gives no pictures; a string is parsed, one that does not parse giving itself as the only picture; an array is kept; other values give no pictures |
| Detail.UnparsableGaleriaIsOnePicture | src/components/ProductDetailPage.tsx:40-45 | an unparsable gallery string is one picture, used for the cart, without thumbnails |
| Detail.NormaliseGaleria | src/components/ProductDetailPage.tsx:37-49 | the branch-by-branch normalisation computes `Gallery` |
| Detail.DetailPage.constructor | src/components/ProductDetailPage.tsx:22-24 | no item, loading, empty main image |
| Detail.DetailPage.FinishFetch | src/components/ProductDetailPage.tsx:32-63 | a failed request shows the error; otherwise the item is stored with its gallery and category, and the main image becomes the first picture when there is one; a gallery that parsed to `null` shows the error after storing the item |
| Detail.DetailPage.SelectThumbnail | src/components/ProductDetailPage.tsx:116 | the clicked thumbnail becomes the main image |
| Detail.DetailPage.AddToCartCandidate | src/components/ProductDetailPage.tsx:76-85 | the cart object carries the item's id, name, description and category and the first picture or the empty text |
| Text.TrimSlice | src/components/AllProducts.tsx:56 | `trim` gives the slice after the leading white space, with only white space around it and none at its ends |
| Text.TrimIdempotent | src/components/MakeParty.tsx:70 | trimming twice is trimming once |
| Text.TrimBlank | src/components/MakeParty.tsx:64 | a text trims to "" exactly when it is all white space |
| Text.ToLowerIdempotent | src/components/AllProducts.tsx:93 | lower-casing twice is lower-casing once |
| Text.JoinSplit | src/components/AllProducts.tsx:56 | joining the pieces of a split with the separator gives the text back |
| Text.SplitJoin | src/components/Cart.tsx:19-21 | splitting a join of pieces without the separator gives the pieces back |
| Text.SplitFirst | src/components/MakeParty.tsx:67 | the first piece of a split is the text before the first separator |
| Text.ContainsIff | src/components/AllProducts.tsx:96 | `includes` holds exactly when some slice equals the searched text |
| Text.ContainsEmpty | src/components/AllProducts.tsx:96 | every text includes the empty text |
| Text.ParseIntOfIntToString | src/components/InstagramFeed.tsx:89-121 | `parseInt` of a number's text, followed by anything not starting with a digit, gives the number |
| Text.IntToStringChars | src/components/Cart.tsx:20 | a number's text has only digits and a leading minus |
| Text.LessTotal | src/components/AllProducts.tsx:85 | of two different texts one sorts before the other |
| Text.LessTransitive | src/components/AllProducts.tsx:85 | the sort order is transitive |
| Text.Sort | src/components/AllProducts.tsx:85 | `sort()` gives a sorted permutation of its input |
| Text.StrictlySortedUnique | src/components/AllProducts.tsx:85 | two strictly sorted lists with the same elements are equal, so the sidebar order is determined |
| Text.PermutationKeepsNoDuplicates | src/components/AllProducts.tsx:81-85 | sorting the elements of a set keeps them distinct |
| Seqs.FilterIsSubsequence | src/components/AllProducts.tsx:90-97 | `filter` keeps an order-preserving subsequence |
| Seqs.FilterMembership | src/components/AllProducts.tsx:90-97 | an element is kept exactly when it is in the list and passes the test |
| Seqs.FilterCount | src/components/AllProducts.tsx:90-97 | each accepted element is kept as often as it occurs, every other element not at all |
| Seqs.FilterFacts | src/components/AllProducts.tsx:90-97 | `filter` gives an order-preserving subsequence with every copy of each accepted element and nothing else |
| Seqs.FilterFilter | src/components/AllProducts.tsx:90-97 | two filters in a row are one filter on both tests |
| Seqs.TryMapElements | src/components/MakeParty.tsx:55-79 | a `map` whose callback may throw succeeds exactly when every element maps, and then holds the images in order |

## Left out

- The cart store (`CartContext`) is not part of this model. The views only build the objects and requests they hand to it; what it does with them is unknown here. `Limpar Orçamento` passes `clearCart` straight through.
- Network requests are not modelled. Their outcomes are parameters: a response or a failure.
  - This includes the fallbacks `res.data.produtos || res.data.itens || res.data` and `res.data.itens || []`.
  - The API base URLs, the environment variables and `VITE_IG_ENDPOINT` are plain inputs.
- `window.open`, `window.scrollTo`, the toasts and the console messages are not modelled. They are output only.
- The online/offline listeners of the Instagram section are not modelled. They only set a flag that nothing in the core reads.
- The 3-second interval period is not modelled: intervals are handles, and a tick is an explicit call.
- Rendering is not modelled: class names, the progress bar width (a floating-point percentage) and placeholder images of the views.
- Text: `trim` removes ASCII white space only and `toLowerCase` folds only `A`–`Z`; JavaScript applies the Unicode tables. The sort order compares character codes; JavaScript compares UTF-16 code units, which agree on the Basic Multilingual Plane.
- `Text.ParseInt`: it reads decimal digits after optional leading white space and a sign, and stops at the first non-digit. It does not model the `0x` prefix, which no text read by the views carries.
- `Feed.InstagramFeed.FetchInstagramPosts`: cached text that parses to JSON other than a post list is not modelled. `JSON.parse` of the cache is typed to post lists.
- `Feed.InstagramFeed.FetchInstagramPosts`: the second `Date.now()` reading (`setLastFetch` and the cache write) is one clock value, `later`.
- `Feed.InstagramFeed.FetchInstagramPosts`: a `JSON.stringify` that throws is not modelled.
- `Feed.InstagramFeed.FetchInstagramPosts`: a `localStorage.setItem` that throws (a full storage quota) is not modelled. In the source it would skip the remaining write and fall into the `catch`, replacing the new posts with the cached or mock ones.
- `Detail.DetailPage.FinishFetch`: the thumbnail strip of a gallery that parsed to a non-array is not modelled. For a string with more than one character, `.map` throws while rendering.
- `Party.PartyCategory`: a `categoria` that is present but not a string is not modelled. `.trim()` on it would throw. Fields are typed as strings or absent.
- Party: the same holds for non-string `nome`, `descricao` and `imagem_url`.
- Ids, quantities, prices and times are unbounded `int`s; JavaScript numbers are doubles, which the values the views handle stay well within.
- `Showcase.CartCandidate`: prices are whole cents. The showcase hands the store 8999 where `ProductList.tsx` passes the number 89.99; no floating point is modelled.
- `Json.JObject` carries no fields. So a `galeria` string that parses to an object with a numeric `length` key has `Detail.Length` 0 in the model, while in the source `galeria.length > 0` can hold and the main image becomes `galeria[0]`.
- `Detail.Length` and `Detail.First` count characters of a string gallery, where JavaScript counts UTF-16 code units.

## Findings

| source | as written | input that shows it | evidently intended | confidence | as-written member | corrected member |
|---|---|---|---|---|---|---|
| src/components/HeroCarousel.tsx:77-96 | `goToSlide`, `nextSlide` and `prevSlide` call `startTimer()` whenever `isPlaying`, even while the pointer is over the carousel | hover over the carousel, press the right arrow, wait 3 seconds: the interval started by the arrow advances the slide under the pointer | restart the interval only while playing and not hovered (`isPlaying && !isPaused`), as the effect does | not executed | Carousel.HoverThenArrowAsWritten | Carousel.HoverThenArrow |
| src/components/Cart.tsx:55 | the suffix `'ns'` is appended to `item`, giving "itemns" | a cart with 2 items: "2 itemns no seu orçamento" | the Portuguese plural "itens": "2 itens no seu orçamento" | not executed | Quote.CartDescriptionAsWrittenMisspells | Quote.CartDescriptionPlural |
