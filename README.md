# Malawi property scrapers: the listing-extraction core in Dafny

This project models the part of the Malawi property scrapers that turns fetched pages
into listing records. That part lives in `malawi_property_scraper.py` (six adapters),
`multi_property_scraper.py` (three adapters) and `atsogo_scraper.py` (the standalone
Atsogo crawler). It is made of four layers:

- **Field extractors** (`Text`, `Patterns`, `Extractors`):
  - `clean_text`;
  - the ordered regular-expression lists of `extract_price`, `extract_area` and
    `extract_bedrooms_bathrooms`, where the first rule that matches anywhere wins;
  - the Atsogo rules: the category line scan, the district line, the
    `<N> <M> Bathroom` pair and the `YYYY-MM-DD HH:MM:SS` date;
  - the keyword classifiers of the generic adapters.

  Every regular expression is a hand-written scanner with the semantics of Python's
  `re.search`: the leftmost match and greedy groups. Case folding is ASCII only.
- **Pages and elements** (`Documents`, `Discovery`). A parsed page is an oracle that
  answers each query the adapters send (`find_all('div', class_='property_item')`,
  `select(css)`, `find_all('div')`, the class-pattern `find_all`). Each answer is a
  sequence of containers, and a container has its text and its headings. Fetching a
  URL gives one of three results: no usable body, a body the HTML parser rejects, or a
  parsed page.
- **Adapters** (`KeywordSites`, `Atsogo`, `Paging`):
  - The generic single-page adapters try their URLs in order. They find containers
    with the selector cascade and its keyword fallback, or with a class-name query.
    They read every container into a listing and keep those with a title or a price.
  - The Atsogo adapter walks `?page=N` with a page cap checked before each fetch.
  - The standalone scraper checks its cap after reading a page and also stops when
    the page has no `Next` link.
- **Aggregators** (`Aggregator`): run the adapters in their declared order and
  concatenate their records. An adapter that raises contributes nothing.

The loops of the source that accumulate or stop early are `method`s with their loop
invariants: the URL loop, the selector cascade and its fallback, the container loops,
the two page loops, the adapter loop of the aggregators, and the first-match loops of
`extract_price`, `extract_area`, `extract_bedrooms_bathrooms` and the Atsogo category
and location scans. Each method is proved equal to a recursive specification function
(`FirstRule`, `FirstTypeLine`, `FirstLineWith` for the first-match loops), and the
properties are proved as lemmas about those functions. The `while True` page loops are
proved to terminate from a ghost `bound`; for each loop the bound says exactly when it
returns, so neither excludes a site on which the source returns:

- For the standalone scraper, `StandaloneEndsBy` says that some page up to `bound`
  stops its loop: a page with no listings, the cap, or no `Next` link.
- For the Atsogo adapter of the aggregators, `InlineEndsBy` says that some page up to
  `bound` stops its loop: a page past the cap, or a page that fails, is rejected or
  has no listings. A failed page ends the crawl whatever the pages after it hold
  (`InlineStopsAtGap`). Without a cap, on a site with listings on every page, no page
  stops the loop and the source never returns (`InlineEndlessSite`, see Findings).

## Model

| member | source | states |
|---|---|---|
| Text.Lower | malawi_property_scraper.py:249 | lower-casing keeps the length (ASCII letters only are folded) |
| Text.FindFrom | malawi_property_scraper.py:250 | the first occurrence of a word at or after a position, with none before it, or none at all |
| Text.Strip | malawi_property_scraper.py:33 | `str.strip()` leaves no blank at either end and never lengthens the text |
| Text.StripOfTrimmed | malawi_property_scraper.py:33 | stripping an already stripped string changes nothing |
| Text.StripKeepsVisible | malawi_property_scraper.py:33 | stripping removes only blanks |
| Text.Collapse | malawi_property_scraper.py:33 | `re.sub(r'\s+', ' ', ...)` leaves only plain spaces, never two in a row, and keeps the first and last characters unless they are blanks; CollapseJoinsWords states which words it keeps |
| Text.CollapseKeepsVisible | malawi_property_scraper.py:33 | collapsing blank runs removes no visible character |
| Text.CollapseFixpoint | malawi_property_scraper.py:33 | a string with single plain spaces only is left unchanged by the collapse |
| Text.CleanText | malawi_property_scraper.py:29-33 | the result has no blank at either end, only single plain spaces, and the same visible characters as the input; it is "" exactly when the input is empty or all blanks; CleanTextJoinsWords states it exactly |
| Text.Words | malawi_property_scraper.py:29-33 | `str.split()`, the reference for clean_text: every word is non-empty and blank-free |
| Text.WordsOfStrip | malawi_property_scraper.py:33 | stripping keeps every word |
| Text.CollapseJoinsWords | malawi_property_scraper.py:33 | on a string with no blank at either end, the substitution gives its words joined by single spaces |
| Text.WordsOfJoin | malawi_property_scraper.py:29-33 | splitting blank-free words joined by single spaces gives the words back |
| Text.CleanTextJoinsWords | malawi_property_scraper.py:29-33 | clean_text is `' '.join(text.split())`: the words of the text, in order, joined by single spaces |
| Text.CleanTextKeepsWords | malawi_property_scraper.py:29-33 | the cleaned text has exactly the words of the input, in order |
| Text.CleanTextIdempotent | malawi_property_scraper.py:29-33 | cleaning a cleaned text changes nothing |
| Text.VisibleOfConcat | malawi_property_scraper.py:33 | the visible characters of a concatenation are those of its parts, in order |
| Text.SplitLines | atsogo_scraper.py:58 | `split('\n')` gives at least one piece, and no piece holds a line break |
| Text.SplitJoin | atsogo_scraper.py:58 | joining the pieces with line breaks gives the text back |
| Text.WordInSomePiece | atsogo_scraper.py:58 | a word without line breaks found in the text lies inside one piece |
| Text.KeepNonBlank | atsogo_scraper.py:58 | the kept lines are stripped and non-empty |
| Text.NonBlankLines | atsogo_scraper.py:58 | the listing's lines are stripped and non-empty |
| Text.KeptPiece | atsogo_scraper.py:58 | every piece that is not blank appears, stripped, among the kept lines |
| Text.WordInSomeLine | atsogo_scraper.py:75-77 | a word without blanks that occurs in the text occurs in some stripped non-blank line |
| Text.Without | malawi_property_scraper.py:54 | `replace(',', '')` leaves no comma, never lengthens, and keeps only characters of the input |
| Text.WithoutConcat | malawi_property_scraper.py:54 | removing commas works piece by piece |
| Text.Decimal | multi_property_scraper.py:121 | the page number is written as non-empty digits without a leading zero |
| Text.DecimalRoundTrip | multi_property_scraper.py:121 | reading the written page number gives the number back |
| Text.DecimalInjective | multi_property_scraper.py:121 | different page numbers are written differently |
| Patterns.AmountEnd | malawi_property_scraper.py:41 | the greedy `[\d,]+\.?\d*` that starts at a position ends after it |
| Patterns.TimestampEnd | atsogo_scraper.py:98 | a match of the date rule is a full `YYYY-MM-DD<blanks>HH:MM:SS` |
| Patterns.FirstNameAt | atsogo_scraper.py:70 | the alternative of a name alternation chosen at a position is one of the names and fits there |
| Patterns.NoNameAt | atsogo_scraper.py:70 | no alternative is chosen at a position exactly when no name fits there |
| Patterns.TagThenAmountAt | malawi_property_scraper.py:41-43 | a `TAG\s*amount` match captures a whole greedy amount after the tag |
| Patterns.AmountThenTagAt | malawi_property_scraper.py:44-46 | an `amount\s*TAG` match captures a whole greedy amount that starts at the position |
| Patterns.CountThenUnitAt | malawi_property_scraper.py:64-68 | a `(\d+)\s*unit` match captures non-empty digits that start at the position |
| Patterns.AnyNameAt | malawi_property_scraper.py:283 | a name-alternation match at a position spans one of the names |
| Patterns.MatchAt | malawi_property_scraper.py:40-49 | a match at a position lies inside the text, and its group has the shape its pattern captures (amount, digits, name or timestamp) |
| Patterns.LeftmostFrom | malawi_property_scraper.py:52 | `re.search` gives the leftmost position where the pattern matches, with no match before it, or no match at all |
| Patterns.SameMatchesSameSearch | atsogo_scraper.py:70 | two patterns that match alike at every position give the same search result |
| Patterns.FirstPresent | malawi_property_scraper.py:51-54 | the first present entry of a list from an index, with all earlier ones absent |
| Patterns.Searches | malawi_property_scraper.py:51-52 | one search per rule, in rule order |
| Patterns.FirstRule | malawi_property_scraper.py:51-54 | the rule that decides matches somewhere and every rule before it matches nowhere; no rule decides only when none matches |
| Patterns.FirstGroupIsEarliestRule | malawi_property_scraper.py:51-54 | if rule k matches and no earlier rule matches anywhere, rule k decides with its leftmost match, whatever later rules would match earlier in the text |
| Patterns.PairAt | atsogo_scraper.py:92 | a match of `(\d+)\s+(\d+)\s+Bathroom` at a position has two ordered groups of digits separated by blanks |
| Patterns.LeftmostPairFrom | atsogo_scraper.py:92 | the leftmost position where the pair rule matches, or none |
| Patterns.WithoutCommasOfDigits | malawi_property_scraper.py:54 | digits and commas without their commas are all digits |
| Patterns.WithoutAbsent | malawi_property_scraper.py:54 | removing a character that does not occur changes nothing |
| Patterns.AmountWithoutCommas | malawi_property_scraper.py:40-54 | a captured amount without its commas is digits with at most one `.` followed only by digits |
| Patterns.LiteralPrefix | malawi_property_scraper.py:84-85 | where a literal fits, each of its prefixes fits |
| Patterns.ExactLiteral | atsogo_scraper.py:70 | a case-sensitive literal match captures exactly the literal |
| Documents.GetTextStripped | atsogo_scraper.py:55 | `get_text(strip=True)` is stripped and has the same visible characters as `get_text()` |
| Documents.ConcatOfTrimmed | atsogo_scraper.py:55 | joining stripped non-empty text nodes gives a stripped string, empty only without nodes |
| Documents.StrippingNodesKeepsVisible | atsogo_scraper.py:55 | stripping the text nodes and dropping the blank ones removes only blanks |
| Documents.HeadingIndex | malawi_property_scraper.py:275 | the first heading from a position at one of the levels, with none before it, or none |
| Documents.FindHeading | malawi_property_scraper.py:275 | `find([...])` gives a heading of the element at one of the levels; none exactly when no heading has such a level |
| Documents.HeadingTitle | malawi_property_scraper.py:274-277 | the title is "" without a heading at the levels; otherwise it is the words of the first such heading's text joined by single spaces, non-empty exactly when that text is not all blanks |
| Discovery.KeepListingLike | malawi_property_scraper.py:246-252 | the fallback keeps exactly the divs whose lower-cased text names a listing keyword and is longer than 50 characters |
| Discovery.FirstFruitful | malawi_property_scraper.py:237-243 | the first selector that finds anything, with every earlier one empty, or none |
| Discovery.Discover | malawi_property_scraper.py:237-252 | when every selector finds nothing, only listing-like divs are used |
| Discovery.FirstFruitfulSelectorWins | malawi_property_scraper.py:237-243 | the first selector that finds anything is used alone, whatever later selectors or the divs would give |
| Discovery.NothingDiscovered | malawi_property_scraper.py:237-252 | no containers are found exactly when every selector is empty and no div looks like a listing |
| Discovery.DiscoverElements | malawi_property_scraper.py:237-253 | the selector loop with its break, and the fallback loop, compute the cascade's result |
| Extractors.AmountByRules | malawi_property_scraper.py:51-56 | the result of an amount rule list is a normalised price, "" when no rule matches |
| Extractors.ExtractPrice | malawi_property_scraper.py:35-56 | the price is digits with at most one `.` (so never a comma); "" for empty text or when no rule matches |
| Extractors.FindPrice | malawi_property_scraper.py:37-56 | the pattern loop of extract_price, returning at the first rule that matches, gives ExtractPrice |
| Extractors.PriceFromEarliestRule | malawi_property_scraper.py:40-54 | the price is the leftmost group of the earliest rule that matches anywhere, without commas |
| Extractors.MkPrice | atsogo_scraper.py:80-83 | the standalone price is a normalised price, "" without a case-sensitive `MK` amount |
| Extractors.MkPriceOfMatch | atsogo_scraper.py:81-83 | with an `MK` amount in the text, the standalone price is the leftmost one without commas |
| Extractors.CountByRules | malawi_property_scraper.py:71-76 | the result of a count rule list is "" or digits, and "" exactly when no rule matches |
| Extractors.CountFromEarliestRule | malawi_property_scraper.py:97-107 | the count is the leftmost digits of the earliest rule that matches anywhere |
| Extractors.ExtractArea | malawi_property_scraper.py:58-76 | the area is "" or digits, "" exactly when no unit rule matches |
| Extractors.FindArea | malawi_property_scraper.py:60-76 | the pattern loop of extract_area, returning at the first unit rule that matches, gives ExtractArea |
| Extractors.AreaFromEarliestRule | malawi_property_scraper.py:63-74 | the area comes from the earliest unit rule that matches: `sqm`, then `m²`, `square meters`, `hectares`, `ha` |
| Extractors.SqmArea | atsogo_scraper.py:85-88 | the standalone area is "" or digits, "" exactly when no case-sensitive `<digits> sqm` occurs |
| Extractors.BedroomsBathrooms | malawi_property_scraper.py:78-109 | bedrooms and bathrooms are each "" or digits, each "" exactly when none of its own rules matches; empty text gives two "" |
| Extractors.FirstCount | malawi_property_scraper.py:97-101 | the rule loop with its break gives the count of the earliest matching rule |
| Extractors.ExtractBedroomsBathrooms | malawi_property_scraper.py:78-109 | the two loops give what the function specifies |
| Extractors.LongerUnitImpliesShorter | malawi_property_scraper.py:84-85 | where `bedroom` matches, `bed` matches too and captures the same digits |
| Extractors.ShadowedRule | malawi_property_scraper.py:83-92 | a rule whose unit extends an earlier rule's unit never decides |
| Extractors.BedroomRuleNeverDecides | malawi_property_scraper.py:83-86 | the `bedrooms?` rule never decides; `beds?` always does when either matches |
| Extractors.BathroomRuleNeverDecides | malawi_property_scraper.py:88-92 | the `bathrooms?` rule never decides |
| Extractors.CombinedBedBath | atsogo_scraper.py:92-95 | the pair rule gives two non-empty digit groups together, or nothing, exactly when it matches nowhere |
| Extractors.DatePosted | atsogo_scraper.py:98-100 | the date is "" or a full timestamp, non-empty exactly when the date rule matches |
| Extractors.CombinedBedBathAtLeftmost | atsogo_scraper.py:92-95 | when the pair rule matches, the pair is the two groups of its leftmost match |
| Extractors.DatePostedAtLeftmost | atsogo_scraper.py:98-100 | when the date rule matches, the date is the text of its leftmost match |
| Extractors.TownsAreWords | malawi_property_scraper.py:283 | every district name of the generic rule is letters only |
| Extractors.UpperTownsAreWords | atsogo_scraper.py:70 | every district name of the Atsogo rules is letters only (so it holds no blank) |
| Extractors.RepeatedNameIgnored | atsogo_scraper.py:70 | a name repeated later in an alternation never changes the alternative chosen |
| Extractors.NotMatchingNameIgnored | atsogo_scraper.py:70 | a name that does not fit at a position never changes the alternative chosen there |
| Extractors.SameFirstNameSameMatch | atsogo_scraper.py:70 | alternations that choose the same name at a position match alike there |
| Extractors.RepeatedTownIgnored | atsogo_scraper.py:70 | the standalone scraper's repeated `NKHOTAKOTA` finds the same match as the adapter's list |
| Extractors.FieldEnd | malawi_property_scraper.py:283 | `[^,\n]*` runs to the first comma or line break, or to the end |
| Extractors.StripKeepsLeadingWord | malawi_property_scraper.py:285 | a field that starts with a name still starts with it after stripping |
| Extractors.TownField | malawi_property_scraper.py:283-285 | the stripped field after a district name holds no comma or line break and starts with the name |
| Extractors.KeywordLocation | malawi_property_scraper.py:282-285 | the generic location is stripped, has no comma or line break, starts with a district name, and is non-empty exactly when a district occurs |
| Extractors.KeywordLocationAtLeftmostTown | malawi_property_scraper.py:283-285 | the location is the field at the leftmost district name, with no district before it |
| Extractors.FirstLineWith | atsogo_scraper.py:75-78 | the first line containing a word is one of the lines and contains it; "" exactly when no line does |
| Extractors.FirstLineWithAt | atsogo_scraper.py:75-78 | the line chosen is the first one that contains the word |
| Extractors.FindLineWith | atsogo_scraper.py:75-78 | the line loop with its break gives the first line containing the word, or "" |
| Extractors.AtsogoLocation | atsogo_scraper.py:69-78 | the Atsogo location is a non-blank line containing a district name, non-empty exactly when a district occurs |
| Extractors.MatchedTownInLine | atsogo_scraper.py:70-78 | the matched text is a district name, and some non-blank line contains it, so a district match always yields a location |
| Extractors.AtsogoLocationIsFirstLine | atsogo_scraper.py:75-78 | the location is the first non-blank line containing the district matched |
| Extractors.FirstTypeLine | atsogo_scraper.py:61-62 | the first line at or after a position that is exactly a property type, with none before it, or none |
| Extractors.Categorize | atsogo_scraper.py:60-67 | the property type is "" or one of the five types, the transaction type "" or one of the two; a transaction type needs a property type; no type exactly when no line is one |
| Extractors.CategoryFromFirstTypeLine | atsogo_scraper.py:61-67 | the property type is the first line that is a type, and the transaction type comes only from the line right after it |
| Extractors.FindCategory | atsogo_scraper.py:61-67 | the enumerate loop with its break sets the property type from the first type line and the transaction type only from the line after it |
| Extractors.KeywordTransaction | multi_property_scraper.py:253-257 | "For Rent" exactly when `rent` (or `let`, where the adapter checks it) occurs in the lower-cased text; otherwise "For Sale" exactly when `sale` occurs; otherwise "" |
| Extractors.KeywordPropertyType | multi_property_scraper.py:259-265 | Residential words beat Commercial words, which beat Land words; "" when none occurs |
| Extractors.LowerConcat | multi_property_scraper.py:254 | lower-casing works piece by piece |
| Extractors.ContainsExtends | multi_property_scraper.py:254 | a word in a text is still there after more text is appended |
| Extractors.RentVerdictIsStable | multi_property_scraper.py:254-255 | appending text to a listing judged "For Rent" never changes the verdict |
| Extractors.TransactionRulesDisagreeOnLet | multi_property_scraper.py:335-338 | the SGW and Nyumba24 rules differ only on text with `let` but no `rent`, which SGW calls "For Rent" |
| Extractors.ResidentialVerdictIsStable | multi_property_scraper.py:260-261 | appending text to a listing judged Residential never changes the verdict |
| KeywordSites.KeywordListing | malawi_property_scraper.py:259-307 | a generic listing has normalised numeric fields, no date, and a location without comma or line break; adapters without a classifier leave its field "" |
| KeywordSites.Filtered | malawi_property_scraper.py:255-310 | filtering never gives more results than containers |
| KeywordSites.FilteredStep | malawi_property_scraper.py:255-310 | one more container adds its result when it has one, and nothing else |
| KeywordSites.FilteredExactly | malawi_property_scraper.py:309-310 | every present result is kept, and every kept value is the result of some container |
| KeywordSites.KeywordRecords | malawi_property_scraper.py:255-310 | at most one record per container, each tagged with the adapter's source and URL, and each with a title or a price |
| KeywordSites.KeptExactly | multi_property_scraper.py:267-268 | every container whose listing has a title or a price has its record kept, and every record comes from a container |
| KeywordSites.FirstFetched | malawi_property_scraper.py:211-220 | the first URL that gives a usable body, or none exactly when every URL fails |
| KeywordSites.ScrapeSite | malawi_property_scraper.py:198-319 | every record of a generic adapter carries its source and URL and has a title or a price |
| KeywordSites.LaterUrlUsedAfterFailures | malawi_property_scraper.py:211-222 | the page of a later URL is used only when every earlier URL failed, and then the adapter returns the kept records of that page |
| KeywordSites.FirstFetchedAt | malawi_property_scraper.py:212-216 | the URL loop stops at the first URL with a usable body |
| KeywordSites.RejectedPageYieldsNothing | malawi_property_scraper.py:218-316 | when the first usable body is rejected by the parser, the adapter returns no records, even if a later URL would work |
| KeywordSites.AllUrlsFailedYieldsNothing | malawi_property_scraper.py:211-222 | when no URL gives a usable body, the adapter returns no records |
| KeywordSites.FetchFirst | malawi_property_scraper.py:211-216 | the URL loop with its break gives the first usable body |
| KeywordSites.ReadListing | malawi_property_scraper.py:257-307 | the field-by-field assignments give the specified listing |
| KeywordSites.ScrapeKeywordSite | malawi_property_scraper.py:198-319 | the whole adapter as written gives what the specification gives |
| KeywordSites.KeepListings | malawi_property_scraper.py:255-310 | the container loop gives the kept records in order |
| Atsogo.PageUrlInjective | multi_property_scraper.py:121 | different pages are fetched from different URLs |
| Atsogo.Rooms | multi_property_scraper.py:178-181 | bedrooms and bathrooms are "" or digits, both set or neither, set exactly when the pair rule matches somewhere |
| Atsogo.InlineListing | multi_property_scraper.py:138-185 | an adapter listing is normalised, has both room counts or neither, has a transaction type only with a property type, and takes its location from one of its lines |
| Atsogo.RoomsAtLeftmost | multi_property_scraper.py:178-181 | when the pair rule matches, bedrooms and bathrooms are the two groups of its leftmost match |
| Atsogo.StrippedTitle | atsogo_scraper.py:53-55 | the standalone title is "" without an h3; otherwise it is stripped and has the visible characters of the first h3's text |
| Atsogo.StandaloneListing | atsogo_scraper.py:32-102 | a standalone listing is normalised, has both room counts or neither, has a transaction type only with a property type, and takes its location from one of its lines |
| Atsogo.ReadersAgree | atsogo_scraper.py:53-100 | the two Atsogo readers agree on type, transaction, location, rooms and date, and their titles differ only in blanks |
| Atsogo.AtsogoRecord | multi_property_scraper.py:138-151 | an adapter record is tagged `atsogo` and carries the URL of its page |
| Atsogo.StandaloneItem | atsogo_scraper.py:141 | a standalone listing is normalised |
| Atsogo.AtsogoRecordsFromReadPages | multi_property_scraper.py:111-196 | every adapter record is the listing of a container of a page the crawl read, within the cap, tagged with that page's URL |
| Atsogo.StandaloneListingsFromReadPages | atsogo_scraper.py:108-161 | every standalone listing is the listing of a container of a page the crawl read, within the cap |
| Atsogo.ScrapeAtsogo | multi_property_scraper.py:111-196 | the adapter as written gives the gathered records of its page crawl |
| Atsogo.ScrapeProperties | atsogo_scraper.py:108-161 | the standalone scraper as written gives the gathered listings of its page crawl |
| Paging.PrependTwice | atsogo_scraper.py:145 | extending a result twice is extending it once with both parts |
| Paging.PageItems | multi_property_scraper.py:133-187 | one value per container of the page |
| Paging.PageItemsSnoc | multi_property_scraper.py:133-187 | reading one more container appends its value |
| Paging.GatheredExactly | atsogo_scraper.py:139-145 | the result has one value per container of the pages read, in order, and nothing else |
| Paging.GatheredOfNextPage | atsogo_scraper.py:145 | reading one more page appends its values |
| Paging.Gather | atsogo_scraper.py:139-145 | reading the pages keeps how and where the crawl stopped |
| Paging.GatherOfPrefix | atsogo_scraper.py:124-136 | a crawl that stops before reading its next page returns the values gathered so far |
| Paging.GatherOfLastPage | atsogo_scraper.py:145-156 | a crawl that stops after reading a page returns the values gathered with that page |
| Paging.ReadPage | atsogo_scraper.py:139-143 | the container loop gives the page's values |
| Paging.AppendPage | multi_property_scraper.py:133-187 | appending in the container loop gives the old values followed by the page's values |
| Paging.InlineGoesOn | multi_property_scraper.py:117-131 | a page that does not stop the adapter's loop lies before the bound, and a stopping page still lies ahead |
| Paging.InlineCrawl | multi_property_scraper.py:117-192 | the adapter's page crawl never ends before the page it starts from |
| Paging.InlineCrawlReads | multi_property_scraper.py:117-192 | a finished adapter crawl read exactly the pages from the first to its last, in order, each with listings |
| Paging.InlineCrawlStops | multi_property_scraper.py:118-131 | the adapter stops at the page after its last one, because the cap is passed, or because that page, within the cap, failed to fetch or has no listings |
| Paging.InlineCapBound | multi_property_scraper.py:118-119 | with a cap of n (not `None` or 0) the adapter reads no page past n, and fetches none past n unless it stopped for the cap; without a cap it never stops for the cap |
| Paging.InlineGathered | multi_property_scraper.py:133-187 | every adapter value is the reading of a container of a page it read, within the cap |
| Paging.InlineTurn | multi_property_scraper.py:117-131 | one turn of the adapter's loop: what the crawl returns when the page ends it, or that it goes on |
| Paging.CrawlInline | multi_property_scraper.py:111-196 | the adapter's `while True` loop gives the gathered values of its crawl |
| Paging.InlineStopsAtGap | multi_property_scraper.py:118-131 | a page past the cap or without listings bounds the adapter's crawl, which ends before it whatever later pages hold |
| Paging.InlineEndlessSite | multi_property_scraper.py:117-131 | without a cap, a site with listings on every page has no page that stops the adapter's loop, so no bound exists and the loop never returns |
| Paging.StandaloneGoesOn | atsogo_scraper.py:134-158 | a page the standalone scraper goes past is before the page that stops it |
| Paging.StandaloneStopsWithoutNext | atsogo_scraper.py:134-156 | a page with listings and no `Next` link ends the standalone crawl there, having read that page only |
| Paging.StandaloneCrawl | atsogo_scraper.py:113-158 | the standalone crawl never ends before the page it starts from |
| Paging.StandaloneCrawlReads | atsogo_scraper.py:113-158 | a finished standalone crawl read exactly the pages from the first to its last, in order, each with listings |
| Paging.StandaloneCrawlStops | atsogo_scraper.py:124-156 | the standalone scraper stops because a fetch failed, a page had no listings, the cap was reached after a page, or a page had no `Next` link |
| Paging.StandaloneCapBound | atsogo_scraper.py:149-150 | with a cap the standalone scraper reads no page past the larger of the cap and its first page, and ends below that unless it stopped for the cap; without a cap it never stops for the cap |
| Paging.SameListingPages | atsogo_scraper.py:113-158 | without a cap, a standalone crawl that ran out of pages also bounds the adapter's crawl, and the two read the same pages |
| Paging.StandaloneGathered | atsogo_scraper.py:139-145 | every standalone value is the reading of a container of a page it read, within the cap |
| Paging.StandaloneTurn | atsogo_scraper.py:123-136 | a turn of the standalone loop that ends before reading the page |
| Paging.StandaloneTurnRead | atsogo_scraper.py:139-158 | a turn of the standalone loop on a page with listings: it stops at the cap or without `Next`, or goes on |
| Paging.CrawlStandalone | atsogo_scraper.py:108-161 | the standalone `while True` loop gives the gathered values of its crawl |
| Aggregator.AtsogoRun | multi_property_scraper.py:111-196 | the Atsogo adapter raises exactly when its crawl does, and otherwise every record is tagged `atsogo` and normalised |
| Aggregator.AdapterRun | multi_property_scraper.py:363-371 | a generic adapter always returns; the Atsogo adapter fails exactly when its crawl raises; returned records carry the adapter's name |
| Aggregator.JoinedAppend | multi_property_scraper.py:363-367 | extending with two lists of adapters in turn is extending with their concatenation |
| Aggregator.JoinedFrom | multi_property_scraper.py:363-367 | every aggregated record comes from one of the adapters |
| Aggregator.JoinedBlock | multi_property_scraper.py:363-367 | each adapter's records form one block between those of the adapters around it |
| Aggregator.RaisingAdapterIsolated | multi_property_scraper.py:363-371 | an adapter that raises loses only its own records: the rest are those of the adapters before and after it, in order |
| Aggregator.AdapterBlock | multi_property_scraper.py:357-367 | each adapter's records appear as one block after those of the adapters declared before it |
| Aggregator.AggregateSources | multi_property_scraper.py:357-367 | every aggregated record is tagged with the name of one of the adapters run |
| Aggregator.SameAtsogoBlock | malawi_property_scraper.py:684-691 | both aggregators run Atsogo first, so their results start with the same Atsogo block |
| Aggregator.RunAdapter | multi_property_scraper.py:364-367 | one adapter call inside the `try` gives that adapter's result, or nothing when it raises |
| Aggregator.ScrapeAllWebsites | malawi_property_scraper.py:679-703 | the aggregator loop gives the concatenation of the adapters' contributions in declared order |

## Left out

- Fetching (`get_page_content`, the HTTP session, timeouts, status codes): a fetch is an oracle result. Each URL gives no usable body, a body the HTML parser rejects, or a parsed page.
- HTML parsing (`BeautifulSoup`, `select`, `find_all`, `find`, `get_text`, the class-pattern queries, the `Next` link search): a parsed page gives each query's containers, and a container gives its text and headings.
- CSV output, `run`, `main`, logging and the `time.sleep` delays: file I/O, logging and timing only.
- `test_scraper.py`: a network probe with no extraction logic.
- Unicode: case folding is ASCII only, and `\d` means the ASCII digits. Blanks are the characters Python's `str.isspace` accepts.
- Per-container exceptions: no extractor can raise on the modelled inputs, so the `except` around each container never runs. Likewise, no `extract_property_data` call returns `None`, so the standalone filter keeps every listing.
- Exceptions of the Atsogo adapter are modelled as one source only: the parser rejecting a page's body. The generic adapters catch that case themselves.
- Paging.InlineEndsBy: the Atsogo adapter of the aggregators is modelled on every site where its `while True` loop returns, and on no other: the loop has no result to model when it runs forever. Without a cap, which is the default of `scrape_all_websites` and `run`, that happens on a site with listings on every page (see Findings).
- The page URLs are a function of the page number (`pageUrl`). The Atsogo URLs of both scrapers are one instance of it.
- The `max_pages` argument of the generic adapters is ignored, as in the source, and so it is not a parameter of them.
- Aggregator.Aggregate and the lemmas about it take the Atsogo crawl's result as a parameter. ScrapeAllWebsites ties it to the actual crawl.
- Extractors.BedPatterns: `beds?`, `bedrooms?`, `baths?`, `bathrooms?` and `showers?` are modelled without their optional `s`. The optional letter never changes where a rule matches or what it captures.
- Discovery.KeepListingLike: its contract states which divs are kept, not their order. The order is that of the definition, which DiscoverElements is proved to compute.
- KeywordSites.ScrapeSite: its contract states only the tags and the keep rule. Which records it returns is stated by three lemmas, one per outcome of the URL loop: LaterUrlUsedAfterFailures (a parsed page), RejectedPageYieldsNothing (a page the parser rejects) and AllUrlsFailedYieldsNothing (no usable body).

## Findings

| source | as written | input that shows it | evidently intended | confidence | as-written member | corrected member |
|---|---|---|---|---|---|---|
| multi_property_scraper.py:115-131 | the adapter's page loop stops only at the cap, a failed fetch or a page without listings, and the cap is off by default (`max_pages_per_site=None` in `scrape_all_websites` and `run`) | no cap, and a site that serves listings for every `?page=N` (one that repeats its last page for larger N, say) with no `Next` link on any page | stop after the last page, as the repository's standalone scraper of the same site does when a page has no `Next` link (atsogo_scraper.py:152-156) | medium; not executed | Paging.InlineEndlessSite | Paging.StandaloneStopsWithoutNext |
