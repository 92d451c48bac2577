# IAAI-bot core in Dafny

IAAI-bot watches the IAAI salvage-auction site for one user at a time. It keeps a
stored search filter per user, posts it as a search to the site, scrapes the
listings out of the HTML page that comes back, diffs them against the
listings seen on the previous poll, and mails the new listings and the price
changes. A browser front end edits the filter and watches for new deployments.

This project models that core and proves properties of it:

- `text.dfy` (`Text`): JavaScript whitespace, `trim`, ASCII `toLowerCase`, digits, decimal
  printing and parsing, `replace` with a literal pattern, and the money token
  `/\$[\d,]+(?:\.\d{2})?/` that both the scraper and the price normaliser use.
- `js.dfy` (`Js`): the loosely-typed JavaScript values the code passes around,
  with `String(v)`, truthiness, `Number(v)`, own-property lookup and `JSON.stringify`.
- `lists.dfy` (`Lists`) and `matching.dfy` (`Matching`): first-occurrence
  deduplication (`new Set`, `Array.includes` before `push`), first-by-key maps
  (`Map` filled only when the key is new), last-write-wins objects, and the
  leftmost-match rule of `String.prototype.match`.
- `scrape.dfy` (`Scrape`): `backend/scrapeIaai.js`, the string helpers and the
  four-strategy cascade of `extractVehiclesFromHtml`, including the explicit-stack
  walk over parsed JSON.
- `diff.dfy` (`Diff`): `normPrice`, `makeKey` and `diffVehicles` of `backend/bot.js`.
- `payload.dfy` (`Payload`): the search payload builder of `backend/bot.js`, with
  the `Searches` array as the field of a class that `pushLongRange` and
  `pushFacet` append to.
- `poll.dfy` (`Poll`): the per-user bot state record of `backend/bot.js` as a
  class, the registry of records, `runOnceForUser`, start, stop, the interval
  callback, the 5 s preference cache, the 1 s status coalescing with its ETag
  check, and `resumeContinuousBots`.
- `mailer.dfy` (`Mailer`): `backend/mailer.js`, escaping, URL completion, the
  six-digit id gates, vehicle normalisation and the HTML of the update mail.
- `filters.dfy` (`Filters`): the normalisers and the save handler of
  `backend/filters.js`.
- `filters_form.dfy` (`FiltersForm`) and `filters_component.dfy`
  (`FiltersComponent`): `frontend/components/Filters.jsx`, the loaded form, the
  type errors, the toggles, the submit and reset bodies, and the panel's state.
- `app.dfy` (`App`): the helpers and the small state machines of `frontend/src/App.jsx`.

The clock, the database, the upstream HTTP reply, `JSON.parse`, the SHA-1 of
the ETag, the HTML parser and the mail service are parameters: each operation
that uses them receives their results as arguments (a `World` record, a
`parse` function, pre-parsed page rows).

Where the code and its comments or documented intent disagree, the model
follows the code. Examples:

- `decodeHtmlEntities` decodes `&amp;lt;` to `<`, because it replaces
  `&amp;` before `&lt;`.
- `normPrice("$,")` is the empty string and not null.
- In `buildImageHtml`, the `data-src` rewrite can never fire, because every
  `data-src=` contains `src=` (`Mailer.DataSrcImpliesSrc`).
- When the server version differs from the current one but equals the dismissed
  one, the version check leaves the update prompt as it was rather than closing it.
- If the first poll of `startContinuousForUser` throws, the bot stays `running`
  and has no timer.

## Model

| member | source | states |
|---|---|---|
| Text.Trim | backend/bot.js:684 | `String.prototype.trim` returns a contiguous slice of its input with no whitespace at either end, and is empty exactly when the input is all whitespace; TrimStripsEnds adds that only the ends are cut |
| Text.TrimStripsEnds | backend/bot.js:684 | `trim` removes leading and trailing whitespace and nothing else: its result is the slice between an all-whitespace prefix and an all-whitespace suffix |
| Text.TrimIdempotent | backend/scrapeIaai.js:106 | trimming twice gives the same text as trimming once |
| Text.TrimToLower | backend/bot.js:684-689 | trimming and lower-casing commute, so `trim().toLowerCase()` can be computed in either order |
| Text.ToLower | backend/bot.js:687 | `toLowerCase` on ASCII text: A–Z become a–z, every other character is kept, position by position |
| Text.ToLowerIdempotent | frontend/src/App.jsx:347-350 | lower-casing twice gives the same text as once |
| Text.NatToString | backend/mailer.js:184-186 | the decimal text of a count is non-empty, all digits, and has no leading zero unless it is 0 |
| Text.ParseNatToString | frontend/src/App.jsx:358-363 | reading back the printed decimal text of n gives n |
| Text.NatToStringInjective | backend/mailer.js:184-186 | different counts print differently |
| Text.MoneyAt | backend/scrapeIaai.js:53 | the result is the longest word of `\$[\d,]+(?:\.\d{2})?` that starts at position i, as greedy matching takes it; none exactly when no word of the language starts there, which is when `$` is not followed by a digit or comma |
| Text.MoneyPrefixBound | backend/scrapeIaai.js:53 | every word of the money language at i begins with `$` and a digit or comma and ends no later than the greedy match |
| Text.MoneyEndInLang | backend/scrapeIaai.js:53 | the greedy match (the digit/comma run, then `.dd` when present) is a word of the money language |
| Text.MoneyAtLongest | backend/scrapeIaai.js:53 | no word of the money language at i is longer than the greedy match |
| Text.MoneyFrom | backend/scrapeIaai.js:53 | the money token is the longest word of the language at the leftmost position where one starts; none exactly when no position has one |
| Text.NoDollarNoMoney | backend/bot.js:120 | text without a dollar sign holds no money token |
| Text.ReplaceAllAbsent | backend/scrapeIaai.js:7-10 | a global replace of a pattern that does not occur leaves the text unchanged |
| Text.KeepOnly | backend/bot.js:121-123 | `replace(/[^0-9.]/g, "")` keeps only the wanted characters and never lengthens the text |
| Text.KeepOnlyExact | backend/bot.js:121-123 | a character is in the result exactly when it is in the text and wanted; the result is empty exactly when no character is wanted |
| Text.KeepOnlyAppend | backend/bot.js:121-123 | the kept characters of a concatenation are those of each part, in order |
| Text.KeepOnlyChar | backend/bot.js:121-123 | a single character is kept exactly when it is wanted |
| Text.KeepOnlyAll | backend/bot.js:123 | text made only of wanted characters is left unchanged |
| Text.CollapseSpaces | backend/scrapeIaai.js:50-52 | `replace(/\s+/g, " ")` never lengthens the text, is empty only for empty text, starts with a space exactly when the text starts with whitespace, and leaves only single spaces: no other whitespace and no two spaces in a row |
| Text.RunEndReaches | backend/scrapeIaai.js:53 | a run known to extend to m ends at or after m |
| Js.OfString | backend/bot.js:695 | a missing string becomes null and a present one becomes that string |
| Js.Get | backend/scrapeIaai.js:118 | reading a key an object does not own gives undefined |
| Js.LookupAt | backend/scrapeIaai.js:118 | a lookup returns the first field with that key |
| Js.ObjectGet | backend/bot.js:260-276 | a key of an object literal with distinct keys reads back its value |
| Js.ObjectAbsent | backend/bot.js:260-276 | a key not in an object literal reads as undefined |
| Js.Values | backend/scrapeIaai.js:244-248 | `Object.values` lists the values in field order, and an array's values are its items |
| Js.ParseDigitsNatToString | backend/filters.js:9 | `Number` of the printed digits of n is n |
| Js.StringToNumberRoundTrip | frontend/components/Filters.jsx:24-32 | `Number(String(n))` is n for every integer, negatives included |
| Js.Quote | backend/bot.js:370-372 | `JSON.stringify` of a string is wrapped in double quotes |
| Js.Stringify | backend/bot.js:105-106 | `JSON.stringify` is never empty, writes nullish as `null`, and delimits strings, arrays and objects with their quotes or brackets |
| Js.EscapeCharPrefixFree | backend/bot.js:105-106 | the string escapes are a prefix-free code: the first escaped character can be read back whatever follows it |
| Js.EscapeStringInjective | backend/bot.js:105-106 | different texts escape to different JSON string bodies |
| Js.QuoteInjective | backend/bot.js:105-106 | `JSON.stringify` of a string determines the string, so different texts never share a serialisation |
| Lists.Dedup | backend/scrapeIaai.js:23-25 | first-occurrence deduplication never lengthens the list |
| Lists.DedupElements | backend/scrapeIaai.js:23-25 | deduplication keeps exactly the elements of the input |
| Lists.DedupDistinct | backend/scrapeIaai.js:23-25 | the deduplicated list has no repeats |
| Lists.DedupOrder | backend/filters.js:29-33 | the deduplicated list keeps the order of first occurrence |
| Lists.DedupOfDistinct | backend/filters.js:32 | a list without repeats is its own deduplication |
| Lists.DedupExtends | backend/scrapeIaai.js:300-308 | deduplicating a longer list only appends to the deduplication of its prefix |
| Lists.FirstByKey | backend/scrapeIaai.js:162-166 | a map filled only for new keys never holds more entries than there were listings |
| Lists.FirstByKeyKeys | backend/scrapeIaai.js:162-166 | the kept listings all have keys, each key once, and together exactly the keys of the input |
| Lists.FirstByKeyFirstWins | backend/scrapeIaai.js:162-166 | each kept listing is the first listing of the input with its key |
| Lists.FirstByKeySubset | backend/scrapeIaai.js:254-258 | every kept listing comes from the input |
| Lists.CollectFirstByKey | backend/scrapeIaai.js:162-166 | the loop that fills the `Map` only for new keys returns the first-by-key list |
| Lists.FoldKeysLastWins | backend/bot.js:129-136 | an object assigned in a loop has exactly the keys assigned, each holding the value from the last listing with that key |
| Lists.Take | backend/scrapeIaai.js:168 | `slice(0, limit)` is a prefix of at most `limit` elements, and exactly `limit` when the list is longer |
| Lists.Filter | backend/scrapeIaai.js:24 | `filter` keeps exactly the elements that pass, and only those |
| Matching.Leftmost | backend/scrapeIaai.js:29 | the match position is the smallest one where the pattern matches |
| Matching.FirstGroup | backend/scrapeIaai.js:29-30 | `match(...)[1]` exists exactly when the pattern matches somewhere, and is the group of the leftmost match |
| Matching.Scan | backend/scrapeIaai.js:300-306 | every collected group comes from a matching position; nothing is collected exactly when no position matches; otherwise the first group is that of the leftmost match and the rest are collected from that match's end |
| Matching.ScanGroups | backend/scrapeIaai.js:300-306 | a property of every possible group holds for every collected group |
| Scrape.DecodeNumeric | backend/scrapeIaai.js:11 | text without `&` has no numeric reference and is unchanged |
| Scrape.DecodeEntityFree | backend/scrapeIaai.js:5-12 | text without `&` decodes to itself |
| Scrape.DecodeHtmlEntities | backend/scrapeIaai.js:5-12 | no contract of its own; its value is fixed by Scrape.DecodeEntityFree (text without `&` is unchanged), Scrape.DecodeNoLonger and Scrape.DecodeLtBetween (one `&lt;` between entity-free text decodes to `<` and nothing else changes), with Scrape.DecodeAmpLt showing the pass order |
| Scrape.DecodeNoLonger | backend/scrapeIaai.js:5-12 | decoding never lengthens the text |
| Scrape.DecodeLtBetween | backend/scrapeIaai.js:5-12 | `&lt;` between texts without `&` decodes to `<`, and the texts around it are kept |
| Scrape.DecodeAmpLt | backend/scrapeIaai.js:7-9 | example: because the named entities are replaced one after another, `&amp;lt;` decodes to `<` |
| Scrape.AbsUrlOf | backend/scrapeIaai.js:17-20 | the completed URL is absolute and ends with the given text, and an absolute URL is returned unchanged |
| Scrape.AbsUrlRelative | backend/scrapeIaai.js:18-20 | `//x` gets the `https:` scheme, `/p` gets the site base, and anything else gets the base and a slash |
| Scrape.AbsUrl | backend/scrapeIaai.js:14-21 | null exactly when the decoded, trimmed text is empty; otherwise an absolute URL ending with that text, unchanged when already absolute |
| Scrape.AbsUrlIdempotent | backend/scrapeIaai.js:14-21 | completing a completed URL again changes nothing, for input without entities |
| Scrape.Uniq | backend/scrapeIaai.js:23-25 | `uniq` keeps exactly the non-empty elements, without repeats, in first-occurrence order |
| Scrape.DetailAt | backend/scrapeIaai.js:29 | a detail-link match captures a non-empty alphanumeric name right after `/VehicleDetail/` and ends after `~US` |
| Scrape.ExtractName | backend/scrapeIaai.js:27-31 | a name exists exactly when the case-insensitive pattern matches somewhere; it is the alphanumeric group of the leftmost match |
| Scrape.ExtractMoney | backend/scrapeIaai.js:49-55 | in the whitespace-collapsed, trimmed text: the longest money word at the leftmost position where one starts, and none exactly when no position has one |
| Scrape.StockTagAt | backend/scrapeIaai.js:109 | a tagged match starts with `stock` in any case and captures at least five digits |
| Scrape.StockTag | backend/scrapeIaai.js:109-110 | the tagged digits are at least five digits |
| Scrape.NormalizeStockNumber | backend/scrapeIaai.js:104-114 | null for a missing or blank value; otherwise the tagged digits when tagged; any result is a digit-only string of length at least 5 |
| Scrape.NormalizeUntagged | backend/scrapeIaai.js:112-113 | untagged text gives all its digits when there are at least five, else null |
| Scrape.NormalizeDigits | backend/scrapeIaai.js:104-114 | a digit string of length at least 5 normalises to itself |
| Scrape.NormalizeStockNumberIdempotent | backend/scrapeIaai.js:104-114 | normalising a normalised stock number changes nothing |
| Scrape.NoStockTag | backend/scrapeIaai.js:109 | a digit-only string has no `Stock #` tag |
| Scrape.GetAny | backend/scrapeIaai.js:116-122 | the value of the first key the object owns with a non-nullish value, or null when there is none |
| Scrape.ActionText | backend/scrapeIaai.js:75-79 | `.first()` of the action links that read buy now, current bid or bid, trimmed: a non-empty result is the trimmed text of a price link with no price link before it, and the result is empty exactly when no link reads as a price |
| Scrape.PriceActionNotBlank | backend/scrapeIaai.js:75-79 | a link text that reads as a price trims to non-empty text |
| Scrape.RowListing | backend/scrapeIaai.js:65-99 | a row gives a listing exactly when its title link completes to a URL, which becomes the listing's link; its stock id is at least five digits and its price has the money shape |
| Scrape.RowListingAbsolute | backend/scrapeIaai.js:69 | a row's listing has an absolute link |
| Scrape.RowListingsAbsolute | backend/scrapeIaai.js:129-161 | every listing parsed from the rows has an absolute link |
| Scrape.StrategyA | backend/scrapeIaai.js:127-170 | strategy A returns at most `limit` listings |
| Scrape.StrategyADistinctLinks | backend/scrapeIaai.js:162-166 | strategy A keeps one listing per link |
| Scrape.StrategyAFirstWins | backend/scrapeIaai.js:162-166 | each listing strategy A keeps is the first row listing with its link |
| Scrape.NodeRecord | backend/scrapeIaai.js:199-250 | an object node yields at most one record, and one exactly when the first non-nullish value under the name keys is a non-empty string, which the record carries |
| Scrape.VisitObject | backend/scrapeIaai.js:199-250 | visiting an object records the object itself, then everything reachable from its values, and its values are smaller than it |
| Scrape.Expand | backend/scrapeIaai.js:189-251 | one pop of the walk pushes children whose visit, after what it records, is the node's visit, and they are smaller than the node |
| Scrape.WalkDocument | backend/scrapeIaai.js:184-251 | the explicit-stack walk, pushing every array element and object value, records exactly what the recursive visit of the document records |
| Scrape.StepKeeps | backend/scrapeIaai.js:189-251 | one pop-and-push step keeps "found so far plus the visit of the stack" equal to the visit of the document, and shrinks the stack |
| Scrape.VisitStackAppend | backend/scrapeIaai.js:189-251 | a stack pushed on top is visited before what lies below it |
| Scrape.CollectJsonRecords | backend/scrapeIaai.js:178-252 | the loop over scripts collects the records of every script that parses, in order, and skips the others |
| Scrape.SyntheticAll | backend/scrapeIaai.js:259-267 | every kept name becomes one synthetic listing, in order |
| Scrape.StrategyB | backend/scrapeIaai.js:254-268 | strategy B returns at most `limit` listings |
| Scrape.StrategyBDedup | backend/scrapeIaai.js:254-268 | no two listings of strategy B share a link, and each is the synthetic listing of one of the records found in the scripts |
| Scrape.DetailLinkInjective | backend/scrapeIaai.js:262 | different names give different synthetic links |
| Scrape.DetailLinkAbsolute | backend/scrapeIaai.js:262 | a synthetic link is absolute |
| Scrape.SyntheticLinksAbsolute | backend/scrapeIaai.js:259-267 | every synthetic listing has an absolute link |
| Scrape.BeforeTilde | backend/scrapeIaai.js:278-280 | `split("~")[0]` is the longest prefix without `~` |
| Scrape.HiddenId | backend/scrapeIaai.js:278-280 | an id read from the hidden details is non-empty and has no `~` |
| Scrape.StrategyC | backend/scrapeIaai.js:270-297 | strategy C returns at most `limit` listings |
| Scrape.ImageKeyAt | backend/scrapeIaai.js:300-302 | an image-key match captures a non-empty alphanumeric name |
| Scrape.ImageNames | backend/scrapeIaai.js:300-302 | every name taken from an image key is non-empty and alphanumeric |
| Scrape.LinkNames | backend/scrapeIaai.js:304-306 | every name taken from a detail link is non-empty and alphanumeric |
| Scrape.StrategyD | backend/scrapeIaai.js:299-316 | strategy D returns at most `limit` listings |
| Scrape.RegexNamesImagesFirst | backend/scrapeIaai.js:308 | the names of strategy D start with the unique image-key names, before any name that only a link supplies |
| Scrape.UniqPrefix | backend/scrapeIaai.js:308 | `uniq` of a list that starts with a unique list keeps that list as its prefix |
| Scrape.Extract | backend/scrapeIaai.js:124-317 | the cascade returns at most `limit` listings |
| Scrape.ExtractVehiclesFromHtml | backend/scrapeIaai.js:124-317 | the imperative cascade returns the first of strategies A, B, C, D that produced listings, and at most `limit` of them |
| Scrape.ExtractLinksAbsolute | backend/scrapeIaai.js:124-317 | every listing the scraper returns has an absolute link |
| Diff.NormPrice | backend/bot.js:115-125 | null exactly for a missing or blank price; with a money token, its digits and dots; otherwise the digits and dots of the trimmed text when there are any, and the trimmed text itself when there are none |
| Diff.NormPriceExamples | backend/bot.js:110-114 | `"$1,400 USD"`, `"$1400"` and `"1400"` all normalise to `"1400"` |
| Diff.NormPriceIdempotent | backend/bot.js:115-125 | normalising a non-empty normalised price changes nothing |
| Diff.DigitsFixed | backend/bot.js:123-124 | a non-empty string of digits and dots is its own normal form |
| Diff.NormPriceSeparatorsOnly | backend/bot.js:120-121 | a money token of only separators normalises to the empty string, which is not null |
| Diff.MakeKey | backend/bot.js:694-704 | the trimmed stock id when it is meaningful, else the trimmed link when that is meaningful, else null; a key is never empty and is already trimmed |
| Diff.ChangeFor | backend/bot.js:131-152 | one listing yields at most one change record |
| Diff.ChangeForCases | backend/bot.js:132-151 | no key gives nothing; a key not owned by `prevSeen` gives NEW with a null old price; an owned key gives PRICE_CHANGED with the stored price exactly when the new price is non-null and differs |
| Diff.DiffVehicles | backend/bot.js:127-155 | the loop builds exactly the change list and the next-seen map of the specification |
| Diff.ChangesSound | backend/bot.js:138-151 | every change is for a keyed input listing; it is NEW exactly when the key was not seen, and a PRICE_CHANGED carries the stored price and a new, different, non-null price |
| Diff.ChangesComplete | backend/bot.js:138-151 | every keyed listing that is new or whose price changed has its record in the changes |
| Diff.ChangesSplit | backend/bot.js:131-152 | the changes follow the input order, listing by listing |
| Diff.KeylessIgnored | backend/bot.js:133 | a listing without a key contributes nothing |
| Diff.NextSeenKeys | backend/bot.js:129-136 | the next-seen map has exactly the keys of the keyed listings, each holding the normalised price of the last listing with that key, and nothing from `prevSeen` |
| Diff.FirstPollAllNew | backend/bot.js:138-146 | against an empty `prevSeen` every keyed listing is NEW, in order |
| Payload.AnySet | backend/bot.js:62 | true exactly when some value is set |
| Payload.HasAnyFiltersSet | backend/bot.js:47-63 | true exactly when there is a row and one of its twelve filter values is neither nullish nor blank |
| Payload.NoRowNoFilters | backend/bot.js:47-48 | no row, or an empty row, has no filters set |
| Payload.NullListCounts | backend/bot.js:55-57 | a list of two nulls joins to `","` and so counts as a set filter |
| Payload.ToNumberOrNull | backend/bot.js:157-161 | null for `""`, null and undefined; a number is itself, a boolean is 0 or 1, a string is its decimal value when it has one, and an object is null |
| Payload.ToNumberOrNullRoundTrip | backend/bot.js:157-161 | the printed text of any integer parses back to it |
| Payload.OfInt | backend/bot.js:157-161 | every integer or null has a value that `toNumberOrNull` maps to it |
| Payload.LongRangeEntry | backend/bot.js:177-193 | nothing when both bounds are null; a missing From becomes 0 and a missing To becomes From, or 0 |
| Payload.FacetEntry | backend/bot.js:195-214 | nothing for a nullish or blank value; otherwise one facet with the group and the value's text, with `ForAnalytics` only when that argument is given |
| Payload.SearchList.PushLongRange | backend/bot.js:177-193 | appends the range entry, if any, to `Searches` and changes nothing else |
| Payload.SearchList.PushFacet | backend/bot.js:195-214 | appends the facet entry, if any, to `Searches` and changes nothing else |
| Payload.SearchList.PushFacets | backend/bot.js:242 | the loop appends one facet entry per value, in order |
| Payload.ChosenTypes | backend/bot.js:220-231 | a non-empty array field is used as it is; otherwise a truthy legacy value alone; otherwise nothing |
| Payload.BuildIaaiPayload | backend/bot.js:217-277 | the imperative builder produces the payload of the specified searches |
| Payload.PayloadValue | backend/bot.js:260-276 | the payload is an object |
| Payload.OrderedCanonical | backend/bot.js:234-239 | the ordered facet values are distinct and are exactly the canonical values that were chosen |
| Payload.OrderedIgnoresOrder | backend/bot.js:234-239 | input order and duplicates do not change the facet order |
| Payload.FacetsForShape | backend/bot.js:242 | one facet per non-blank value, in order, without `ForAnalytics` |
| Payload.AuctionTypeIsBuyNow | backend/bot.js:247 | the auction-type facet is always present and is always `"Buy Now"` |
| Payload.YearDefault | backend/bot.js:249-255 | with both year bounds null the search holds the range 1900 to 2027 |
| Payload.PagingConstant | backend/bot.js:264-265 | `PageSize` is 100 and `CurrentPage` is 1 |
| Poll.ExtractIaaiData | backend/bot.js:379-402 | keeps status and content type; the JSON body only for a JSON content type with an object body; otherwise text of at most 8000 characters, the string's prefix for a string body |
| Poll.Summarize | backend/bot.js:357-377 | every summary starts with the HTTP status and content type, followed by `text[0..600]="` for a string body, `json keys=` for an object or array body, and `type=` with the `typeof` name for anything else |
| Poll.Initial | backend/bot.js:65-92 | a new record is stopped, not in flight, without a timer, with nothing seen and no cached status |
| Poll.StatusPayload | backend/bot.js:541-556 | the status body is an object with `ok` true; its `bot` fields are stated by Poll.StatusBodyFields and Poll.StatusBodyDebug |
| Poll.StatusBodyFields | backend/bot.js:541-548 | the `bot` object reports the live `running` flag, the stored continuous preference (null when unknown), the last output and the last run time |
| Poll.StatusBodyDebug | backend/bot.js:549-555 | the last filters, request and response are in the `bot` object with `debug`, and absent without it |
| Poll.BotState.constructor | backend/bot.js:67-89 | a new record holds the initial state |
| Poll.BotState.RunOnce | backend/bot.js:404-509 | the poll ends in exactly the state and reply of `RunOnceSpec` for the old state and the world's replies; the lemmas below state what that means |
| Poll.BotState.Guarded | backend/bot.js:413-505 | the body of the `try` ends in exactly the state and reply of `GuardedRun` |
| Poll.BotState.NoteRequest | backend/bot.js:416-420 | records the filter row and the request and nothing else |
| Poll.BotState.Record | backend/bot.js:432-453 | ends in exactly the state and reply of `Respond` for the HTTP reply |
| Poll.BotState.Scan | backend/bot.js:448-502 | ends in exactly the state and reply of `ScanPage` for the page |
| Poll.BotState.NoteScan | backend/bot.js:449-452 | sets the count and `lastSeen` and nothing else |
| Poll.BotState.AppendOutput | backend/bot.js:490-501 | appends to `lastOutput` and nothing else |
| Poll.BotState.Start | backend/bot.js:310-348 | ends in the state the start specification gives |
| Poll.BotState.StartForResume | backend/bot.js:666-676 | one resume iteration: start, and a throw recorded as "Resume failed" |
| Poll.BotState.Tick | backend/bot.js:334-344 | one interval firing: a poll, and on a throw the recorded failure |
| Poll.BotState.Stop | backend/bot.js:350-355 | ends stopped and without a timer |
| Poll.BotState.RefreshContinuous | backend/bot.js:94-103 | ends in the state the cache specification gives |
| Poll.BotState.Status | backend/bot.js:512-568 | ends in the state and reply the status specification gives |
| Poll.Registry.constructor | backend/bot.js:29 | the registry starts empty |
| Poll.Registry.GetState | backend/bot.js:65-92 | returns the user's record, creating an initial record on first use and changing no other |
| Poll.Registry.ResumeUser | backend/bot.js:666-676 | one user of the resume loop updates only that user's record and counts it as the specification says |
| Poll.Registry.Resume | backend/bot.js:655-680 | the loop over the listed ids yields the specified records and count |
| Poll.ResumeOneAt | backend/bot.js:666-676 | resuming one id replaces only that id's record |
| Poll.ResumeStep | backend/bot.js:666-677 | the resume count is the count of the first id plus the count of the rest |
| Poll.SkippedWhenInFlight | backend/bot.js:408-411 | with a poll in flight, nothing is fetched, only `lastOutput` changes, and the last response is returned |
| Poll.NotifyKeeps | backend/bot.js:454-502 | noting what was mailed changes only `lastOutput` |
| Poll.ScanShape | backend/bot.js:448-452 | scanning a page sets the count and `lastSeen` to the page's listings and next-seen map, and otherwise touches only `lastOutput` |
| Poll.RespondShape | backend/bot.js:432-453 | recording a reply writes only the run time, the response and output fields, and replaces `lastSeen` only for an HTML page |
| Poll.GuardedShape | backend/bot.js:414-505 | the body of the `try` writes only the request, filter, reply and scan fields |
| Poll.RunKeepsSchedule | backend/bot.js:404-509 | a poll never changes the schedule, the preference cache or the status cache |
| Poll.RunReplacesSeenOnlyForHtml | backend/bot.js:436-452 | `lastSeen` becomes the page's next-seen map exactly when an HTML page was polled, and is unchanged otherwise |
| Poll.RunRecordsRequest | backend/bot.js:415-420 | the recorded request is the payload built from the filter row, or from `{}` without a row |
| Poll.RunNoChanges | backend/bot.js:500-501 | an HTML poll without changes appends "no changes detected" to the summary |
| Poll.StartIdempotent | backend/bot.js:313-314 | starting a live bot changes nothing |
| Poll.StartRefusesWithoutFilters | backend/bot.js:316-325 | without saved filters the bot stays stopped without a timer and says "Not started" |
| Poll.StartSchedules | backend/bot.js:327-345 | with filters and a first poll that returns, the bot ends running on the new timer |
| Poll.StartTwice | backend/bot.js:310-348 | a start that left the bot running makes a second start change nothing |
| Poll.ScheduledKept | backend/bot.js:310-568 | every operation keeps "a timer only for a running bot" |
| Poll.StartKeepsScheduled | backend/bot.js:310-348 | starting keeps "a timer only for a running bot" |
| Poll.StatusKeepsSchedule | backend/bot.js:512-568 | a status request never changes `running` or the timer |
| Poll.RefreshCached | backend/bot.js:96-98 | within 5 s of the last read the cached flag is returned and the database is not consulted |
| Poll.RefreshReads | backend/bot.js:99-102 | otherwise the read flag is stored with its time; a failed read changes nothing and passes the error on |
| Poll.RefreshThenCached | backend/bot.js:94-103 | after a read, every refresh within the next 5 s answers the value read |
| Poll.StatusCoalescedIgnoresWorld | backend/bot.js:521-530 | inside the 1 s window the reply depends only on the cache and the If-None-Match header, and nothing changes |
| Poll.StatusFresh | backend/bot.js:532-567 | outside the window the body is rebuilt, cached with its time and ETag, and answered with 304 exactly when If-None-Match equals the new ETag |
| Poll.StatusSecondWithinWindow | backend/bot.js:521-530 | a second request within 1 s of a fresh one gets the same body, or a 304 when it presents the ETag |
| Poll.StatusSurvivesDbFailure | backend/bot.js:533-539 | a failed preference read leaves the cached preference as it was |
| Poll.ResumeBotCounts | backend/bot.js:668-670 | one resume step counts exactly when the record ends running with a timer |
| Poll.ResumeFrame | backend/bot.js:655-680 | resuming touches only the listed ids and counts at most one per id |
| Poll.ResumeOneCounts | backend/bot.js:666-676 | one resume step creates the record if needed and counts it exactly when it ends live |
| Poll.ResumeCountsLive | backend/bot.js:655-680 | for distinct ids, `resumed` is the number of listed users whose record ends running with a timer |
| Poll.LiveAmongSplit | backend/bot.js:670 | the live users among a list of ids are counted one id at a time |
| Mailer.Escape | backend/mailer.js:25-43 | escaped text contains none of `<>"'`; text with none of `&<>"'` is unchanged; escaped text without `&` had nothing to escape |
| Mailer.UnescapeEscape | backend/mailer.js:25-43 | an HTML reader decodes the escaped text back to the original |
| Mailer.EscapeFixedPoints | backend/mailer.js:25-43 | escaping leaves text unchanged exactly when it has none of `&<>"'` |
| Mailer.EscapeLonger | backend/mailer.js:27-42 | text with a special character gets strictly longer |
| Mailer.EscapeLength | backend/mailer.js:27-42 | escaping never shortens text |
| Mailer.AbsolutizeStr | backend/mailer.js:45-52 | empty exactly for blank input; otherwise absolute and ending with the trimmed input, which is returned as it is when already absolute |
| Mailer.AbsolutizeRelative | backend/mailer.js:49-51 | `//` gets `https:`, `/p` gets the site base, and anything else gets the base and a slash |
| Mailer.AbsolutizeIdempotent | backend/mailer.js:45-52 | completing a completed URL changes nothing |
| Mailer.Pick | backend/mailer.js:65-70 | null or meaningful; null exactly when the object is falsy or no key holds a meaningful value; otherwise the value of the first key that does |
| Mailer.PickFirst | backend/mailer.js:66-67 | a meaningful value under the first key is what `pick` returns |
| Mailer.PickAllNullish | backend/mailer.js:65-70 | keys that are all null or undefined give null |
| Mailer.MeaningfulText | backend/mailer.js:54-63 | trimmed text of five or more characters is meaningful |
| Mailer.VehicleIdAt | backend/mailer.js:74 | a detail-link match ends inside the subject |
| Mailer.FirstDetailMatch | backend/mailer.js:74 | the leftmost detail-link match, absent exactly when there is none |
| Mailer.FirstDetailMatchAt | backend/mailer.js:74 | a match with none before it is the leftmost |
| Mailer.ExtractVehicleId | backend/mailer.js:72-78 | an id is at least six digits and occurs in the URL; none without a detail link; otherwise the group of the leftmost match when it is numeric |
| Mailer.DetailLinkId | backend/mailer.js:72-78 | the scraper's link for a name passes the gate exactly when the name is a six-digit-or-longer number, and yields it |
| Mailer.DetailMatch | backend/mailer.js:74 | the pattern matches a synthetic link right after the site base, capturing the name |
| Mailer.NoDetailInBase | backend/mailer.js:74 | no detail match starts inside the site base |
| Mailer.IdNeedsText | backend/mailer.js:72-78 | a URL yielding an id has at least six characters |
| Mailer.VehicleGroup | backend/mailer.js:76 | the captured group needs no trimming and occurs in the subject |
| Mailer.LastTail | backend/mailer.js:82 | where the greedy `[^&]+` gives back characters: the last position up to j where `~SID~I1` starts, and none after it |
| Mailer.LastTailAt | backend/mailer.js:82 | a tail with no later one is where the backtracking stops |
| Mailer.ResizerKeyAt | backend/mailer.js:82 | a resizer match ends inside the subject |
| Mailer.FirstResizerKey | backend/mailer.js:82 | the leftmost resizer-key match, absent exactly when there is none |
| Mailer.FirstResizerKeyAt | backend/mailer.js:82 | a match with none before it is the leftmost |
| Mailer.IsValidResizer | backend/mailer.js:80-86 | true for any non-resizer string; for a resizer URL, true exactly when its trimmed key is at least six digits |
| Mailer.NoImageKeysValid | backend/mailer.js:83 | text that never says `imageKeys=` is valid |
| Mailer.ResizerImgValid | backend/mailer.js:80-86 | the scraper's resizer image for a name passes exactly when the trimmed name is at least six digits |
| Mailer.ResizerMatch | backend/mailer.js:82 | the pattern matches a synthetic resizer image at its `imageKeys=`, capturing the name |
| Mailer.NormalizeVehicle | backend/mailer.js:88-103 | the link is empty or an absolute URL passing the id gate, and non-empty exactly when the picked link does; title, stock and price are the picked values; the image is null unless the picked image passes the resizer gate |
| Mailer.MailedSynthetic | backend/mailer.js:88-103 | a synthetic listing is mailed with its link and image exactly when its name is a six-digit-or-longer id, and never with a title |
| Mailer.SyntheticFields | backend/bot.js:144-150 | the mailed object of a synthetic listing has the listing's link and image, a null title and none of the other title keys |
| Mailer.NormalizeNamed | backend/mailer.js:88-103 | normalising an object with the scraper's link and image for a name keeps both exactly when the name is a numeric id |
| Mailer.DataSrcImpliesSrc | backend/mailer.js:115-117 | every `data-src=` contains `src=`, so the data-src rewrite never fires |
| Mailer.BareSrcAt | backend/mailer.js:120 | a bare `src=` match ends inside the tag |
| Mailer.QuotedSrcAt | backend/mailer.js:123 | a quoted `src` match ends inside the tag |
| Mailer.ImgAt | backend/mailer.js:131 | an `<img` match ends inside the tag |
| Mailer.BuildImageHtml | backend/mailer.js:105-146 | empty for a falsy value; for a plain URL, empty exactly when blank and otherwise one tag around the escaped absolute URL |
| Mailer.PlainImageSrc | backend/mailer.js:139-145 | the `src` of a plain-URL tag is escaped text that decodes to the absolute URL |
| Mailer.VehiclesToHtml | backend/mailer.js:148-190 | the page counts its input; its body reads "No vehicles." exactly for an empty list and is otherwise the cards of the normalised vehicles |
| Mailer.Normalize | backend/mailer.js:149 | every vehicle is normalised, in order |
| Mailer.ItemsHead | backend/mailer.js:151-179 | the cards are empty exactly for no vehicles, and never read "No vehicles." |
| Mailer.StockNA | backend/mailer.js:153 | the stock cell reads "N/A" exactly when there is no stock id |
| Mailer.PriceNA | backend/mailer.js:154 | the price cell reads "N/A" exactly when there is no price |
| Mailer.LinkNA | backend/mailer.js:165-171 | the link cell reads "N/A" exactly when normalisation dropped the link |
| Mailer.MeaningfulNotNA | backend/mailer.js:153-154 | a picked value never escapes to the placeholder "N/A" |
| Mailer.EscapedNA | backend/mailer.js:25-43 | only "N/A" escapes to "N/A" |
| Mailer.AppBaseUrl | backend/mailer.js:5-17 | with a set variable whose trim is non-empty, that trim without its one trailing slash, or unchanged when it has none; otherwise `http://127.0.0.1:` and the port, 5174 by default |
| Mailer.FirstSet | backend/mailer.js:6-10 | a chosen variable is non-empty |
| Mailer.UnsubscribeFooter | backend/mailer.js:192-209 | empty exactly for a falsy or blank URL; otherwise the footer around the escaped trimmed URL and the escaped service URL |
| Filters.Allowed | backend/filters.js:18-21 | no allowed value is empty |
| Filters.NormalizeAuctionType | backend/filters.js:13-16 | only `"Buy Now"` survives |
| Filters.NormalizeOne | backend/filters.js:18-21 | a value survives exactly when it is an allowed string |
| Filters.Accepted | backend/filters.js:29-33 | the accepted values are exactly the allowed strings of the input |
| Filters.NormalizedTypes | backend/filters.js:23-36 | a normalised list is never empty |
| Filters.NormalizeTypes | backend/filters.js:23-36 | the loop computes the normalised list of the specification |
| Filters.NormalizeStep | backend/filters.js:29-33 | one loop step pushes the value exactly when it is allowed and not yet in the list |
| Filters.NormalizedTypesMembers | backend/filters.js:23-36 | a result is non-empty, without repeats, and holds exactly the allowed values of the input; it is null exactly for an unset input or one with no allowed value |
| Filters.NormalizedTypesCases | backend/filters.js:24-35 | null for an unset input or no accepted value, else the accepted values without repeats |
| Filters.AcceptedEmpty | backend/filters.js:35 | nothing is accepted exactly when no allowed value occurs |
| Filters.NormalizedTypesOrder | backend/filters.js:29-33 | the result keeps the order of first occurrence in the input |
| Filters.NormalizedScalar | backend/filters.js:26 | a scalar is wrapped into a one-element list when allowed, else null |
| Filters.NormalizedStable | backend/filters.js:23-36 | a non-empty list of distinct allowed values normalises to itself |
| Filters.NormalizeFullSearch | backend/filters.js:58-62 | null exactly for a nullish or blank value; otherwise the trim of its text, a slice with non-space ends |
| Filters.FullSearchIdempotent | backend/filters.js:58-62 | normalising a normalised search text changes nothing |
| Filters.OrNull | backend/filters.js:121 | `v ?? null` is nullish exactly when v is, and never undefined |
| Filters.SaveFilter | backend/filters.js:83-137 | the POST handler computes the saved row of the specification |
| Filters.SavedTypesSource | backend/filters.js:87-94 | the array field is used whenever it is defined, even as null, and the legacy field otherwise |
| Filters.SavedLegacyInventory | backend/filters.js:97-101 | the legacy inventory column is the normalised single value, or else the first of the normalised list, and is allowed |
| Filters.SavedLegacyOnly | backend/filters.js:87-101 | an old client sending only the single value saves it in both columns when allowed, and nothing otherwise |
| Filters.RowValues | backend/filters.js:120-136 | the row has one value per column |
| Filters.RowField | backend/filters.js:151-162 | reading a column of the stored row gives the saved value |
| FiltersForm.ToInputValue | frontend/components/Filters.jsx:24-26 | nullish gives `""`, a string itself, and a number text that parses back to it |
| FiltersForm.NormalizeFormTypes | frontend/components/Filters.jsx:45-64 | the loop computes the form's type list |
| FiltersForm.FormAuctionType | frontend/components/Filters.jsx:41-44 | `"Buy Now"` or `""`, non-empty exactly for `"Buy Now"` |
| FiltersForm.FormYears | frontend/components/Filters.jsx:36-40 | with both years unset the fields show the defaults 1900 and 2027; a numeric year shows text that reads back as that number, and its missing partner shows empty |
| FiltersForm.FormOf | frontend/components/Filters.jsx:34-85 | `fromApiFilter`: the auction type is `"Buy Now"` exactly when the stored `auction_type` reads as `"Buy Now"` and `""` otherwise; the name, bids and odometer bounds are their columns' input text (empty for null); both lists are normalised; the years are the defaults only when both are unset, otherwise each year's input text; the lists are fixed by FormOfTypes and LoadedTypes |
| FiltersForm.FormTypesMembers | frontend/components/Filters.jsx:45-64 | a form list has no repeats, holds exactly the allowed values of the source, and keeps their first-occurrence order |
| FiltersForm.FormAgreesWithServer | frontend/components/Filters.jsx:45-64 | for a list or a string the form keeps the same values as the server's normaliser |
| FiltersForm.LoadedTypes | frontend/components/Filters.jsx:72-79 | loading a saved row shows the saved list, or the legacy single value without one |
| FiltersForm.LoadedTypeErrors | frontend/components/Filters.jsx:92-100 | a loaded form has no type errors exactly when both sources hold an allowed value |
| FiltersForm.HasTypeErrors | frontend/components/Filters.jsx:92-100 | the form has type errors exactly when the inventory list or the fuel list is empty |
| FiltersForm.FormOfTypes | frontend/components/Filters.jsx:73-79 | the form's lists are the normalised lists of the chosen sources |
| FiltersForm.FormTypesEmpty | frontend/components/Filters.jsx:45-64 | a form list is empty exactly when no allowed value occurs |
| FiltersForm.ResetHasTypeErrors | frontend/components/Filters.jsx:240-252 | the reset form and the empty form both show type errors |
| FiltersForm.Remove | frontend/components/Filters.jsx:170 | removing keeps every other element and no copy of the removed one |
| FiltersForm.Toggled | frontend/components/Filters.jsx:166-184 | no contract of its own; ToggledSet and ToggledOnSet state what a toggle does |
| FiltersForm.ToggledSet | frontend/components/Filters.jsx:166-184 | a toggle has no repeats, holds the value exactly when checked, keeps every other element, and appends a new value at the end |
| FiltersForm.ToggledOnSet | frontend/components/Filters.jsx:166-184 | checking a new value appends it, and unchecking it again restores the list |
| FiltersForm.Defaulted | frontend/components/Filters.jsx:195-208 | a blank field takes its default, any other its trimmed text |
| FiltersForm.SubmitBody | frontend/components/Filters.jsx:210-224 | no contract of its own; SubmitNumeric, SubmitSavesInventory, SubmitSavesFuel and SubmitClearsUnsent state what it sends and what the server stores from it |
| FiltersForm.SubmitValues | frontend/components/Filters.jsx:210-224 | the submit body has one value per key |
| FiltersForm.ResetValues | frontend/components/Filters.jsx:254-266 | the reset body has one value per key |
| FiltersForm.ResetBody | frontend/components/Filters.jsx:254-266 | no contract of its own; ResetSendsResetForm states that it is the submit body of the reset form |
| FiltersForm.ResetSendsResetForm | frontend/components/Filters.jsx:237-266 | the reset body is what submitting the reset form would send |
| FiltersForm.SubmitNumeric | frontend/components/Filters.jsx:195-224 | a blank numeric field sends its default, any other its trimmed text's number |
| FiltersForm.SubmitSavesInventory | frontend/components/Filters.jsx:215-218 | the server saves the selected inventory list, or null when empty, with its first element as the legacy value |
| FiltersForm.SubmitSavesFuel | frontend/components/Filters.jsx:219 | the server saves the selected fuel list, or null when empty |
| FiltersForm.SubmitClearsUnsent | frontend/components/Filters.jsx:210-224 | the body omits `fuel_type` and `full_search`, so the server clears both |
| FiltersForm.SubmitThenLoad | frontend/components/Filters.jsx:210-232 | saving and then loading the stored row gives back the selected types |
| FiltersForm.SubmitSavesAuctionType | frontend/components/Filters.jsx:210-232 | the form posts its auction type and the handler stores `"Buy Now"` exactly when the form held it, null otherwise |
| FiltersForm.LoadedAuctionType | frontend/components/Filters.jsx:41-44 | a loaded row shows `"Buy Now"` exactly when that is the stored auction type |
| FiltersForm.SubmitThenLoadAuctionType | frontend/components/Filters.jsx:210-232 | saving and then loading the stored row gives back the auction type the form showed |
| FiltersForm.SubmitTypedNumber | frontend/components/Filters.jsx:195-224 | a field holding a printed integer sends that integer |
| FiltersForm.DefaultYearFrom | frontend/components/Filters.jsx:4 | the default year from sends 1900 |
| FiltersForm.DefaultYearTo | frontend/components/Filters.jsx:5 | the default year to sends 2027 |
| FiltersForm.DefaultZero | frontend/components/Filters.jsx:6-8 | the default minimum bid and odometer start send 0 |
| FiltersForm.DefaultUpper | frontend/components/Filters.jsx:7-9 | the default maximum bid and odometer end send 150000 |
| FiltersComponent.ErrorText | frontend/components/Filters.jsx:119 | the fallback without a message, and the message when it is non-empty text |
| FiltersComponent.FiltersPanel.constructor | frontend/components/Filters.jsx:88-90 | the panel starts with the empty form, no status and the dialog closed |
| FiltersComponent.FiltersPanel.BeginLoad | frontend/components/Filters.jsx:112 | loading clears the status |
| FiltersComponent.FiltersPanel.Loaded | frontend/components/Filters.jsx:116-120 | success loads the stored filter, with both lists normalised; failure shows the error and keeps the form |
| FiltersComponent.FiltersPanel.ToggleInventory | frontend/components/Filters.jsx:175-184 | toggles one inventory value and keeps the lists normalised when the value is allowed |
| FiltersComponent.FiltersPanel.ToggleFuel | frontend/components/Filters.jsx:166-173 | toggles one fuel value and keeps the lists normalised when the value is allowed |
| FiltersComponent.FiltersPanel.Submit | frontend/components/Filters.jsx:186-226 | nothing is sent while a list is empty, and "Select type" shows; otherwise the submit body is sent, and from a valid panel the server stores both lists as selected, with the first inventory type as the legacy value |
| FiltersComponent.FiltersPanel.Saved | frontend/components/Filters.jsx:227-234 | success loads the stored row, says "Saved" and opens the dialog; failure shows the error |
| FiltersComponent.FiltersPanel.Reset | frontend/components/Filters.jsx:237-268 | the form is reset at once, so the type errors show, and the reset body is sent |
| FiltersComponent.FiltersPanel.ResetDone | frontend/components/Filters.jsx:269-275 | success loads the stored row and says "Reset"; failure shows the error |
| FiltersComponent.FiltersPanel.CloseSaved | frontend/components/Filters.jsx:287 | a click on the backdrop closes the dialog |
| FiltersComponent.LoadedNormalized | frontend/components/Filters.jsx:34-85 | any loaded form has both lists normalised |
| App.TextOf | frontend/src/App.jsx:14 | `String(v or "")` is empty for a falsy value and the text itself for a string |
| App.Version7 | frontend/src/App.jsx:13-16 | a version is one to seven characters long |
| App.Version7Prefix | frontend/src/App.jsx:13-16 | blank text gives `"0000000"`; other text gives the first seven characters of its trim |
| App.NormalizeVersion7 | frontend/src/App.jsx:13-16 | a normalised version is one to seven characters long |
| App.ShortHashSameVersion | frontend/src/App.jsx:13-16 | a full commit hash and its seven-character prefix read as the same version |
| App.Version7Stable | frontend/src/App.jsx:13-16 | normalising a normalised version without spaces changes nothing |
| App.AppVersion | frontend/src/App.jsx:10-11 | the build hash when there is one, and never empty |
| App.ShownVersion | frontend/src/App.jsx:121 | the normalised server version, or `"0000000"` before one is known |
| App.EmailNormal | frontend/src/App.jsx:347-350 | the trimmed text lower-cased character by character; never longer than the input, and empty exactly for blank input |
| App.EmailNormalIdempotent | frontend/src/App.jsx:347-350 | normalising an email twice gives the same as once |
| App.NormalizeEmail | frontend/src/App.jsx:347-350 | the trimmed text of its argument lower-cased character by character, `""` for a falsy value, and empty for a string exactly when it is blank |
| App.EmailPieces | frontend/src/App.jsx:355 | the pattern holds exactly for text of the form a@b.c with a, b, c of non-space, non-@ characters |
| App.ValidEmailOneAt | frontend/src/App.jsx:352-356 | a valid address has no spaces, at least five characters, and exactly one `@` |
| App.EmailValid | frontend/src/App.jsx:353-355 | a valid text is not blank; App.EmailPieces, App.ValidEmailOneAt and App.NormalizedEmailValidity state the pattern |
| App.IsValidEmailFormat | frontend/src/App.jsx:352-356 | false for a falsy value and for blank text; the pattern is stated by the App.EmailValid lemmas |
| App.EmailShapeToLower | frontend/src/App.jsx:355 | lower-casing does not change whether the pattern holds |
| App.NormalizedEmailValidity | frontend/src/App.jsx:347-356 | an address is valid exactly when its normalised form is |
| App.TimerSeconds | frontend/src/App.jsx:359 | a non-negative number is kept; a negative or non-numeric value becomes 0 |
| App.Pad2 | frontend/src/App.jsx:360-361 | `padStart(2, "0")` keeps long text and left-pads short text with zeros to two characters |
| App.PaddedValue | frontend/src/App.jsx:360-361 | padded digits read back as the number, and are two characters below 100 |
| App.ClockReads | frontend/src/App.jsx:358-363 | the timer reads as minutes `s / 60` and seconds `s % 60` below 60, around a colon; the minutes are zero-padded to two digits and have no leading zero beyond that; 0 reads `"00:00"` |
| App.FormatTimer | frontend/src/App.jsx:358-363 | `mm:ss`: whole minutes zero-padded to two digits (longer only without a leading zero), a colon and two digits of seconds, reading `s / 60` and `s % 60` of the clamped count; a negative or non-numeric count gives `"00:00"` |
| App.StepDown | frontend/src/App.jsx:341 | one countdown step never goes below 0 and never goes up |
| App.CountdownValue | frontend/src/App.jsx:336-345 | after k ticks the countdown reads the start minus k, but never below 0 |
| App.ResendBlockedForPeriod | frontend/src/App.jsx:429-431 | resend stays blocked for exactly 120 ticks after the dialog opens |
| App.OtpResend.CanResend | frontend/src/App.jsx:431 | no contract of its own: resend is allowed once no seconds are left; App.ResendBlockedForPeriod and App.OtpResend.Tick state when that happens |
| App.OtpResend.constructor | frontend/src/App.jsx:97 | the dialog starts closed with no countdown |
| App.OtpResend.Open | frontend/src/App.jsx:365-372 | opening the dialog starts the 120 s countdown |
| App.OtpResend.Close | frontend/src/App.jsx:374-384 | closing the dialog clears the countdown |
| App.OtpResend.Tick | frontend/src/App.jsx:336-345 | a tick of an open dialog steps the countdown down by one; nothing else changes |
| App.UpdateWatch.constructor | frontend/src/App.jsx:100-102 | no server version, no prompt, no check in flight, and no resume yet |
| App.UpdateWatch.BeginCheck | frontend/src/App.jsx:150-158 | a check starts exactly when not unmounted, visible, none in flight and at least 1500 ms since the last; then it is in flight and timed |
| App.UpdateWatch.EndCheck | frontend/src/App.jsx:160-180 | the check ends; a reply stores the server version and opens the prompt for a version that is new and not dismissed, or closes it when the versions agree |
| App.UpdateWatch.Dismiss | frontend/src/App.jsx:223-231 | dismissing remembers the shown server version and closes the prompt |
| App.UpdateWatch.Unmount | frontend/src/App.jsx:198-202 | unmounting cancels later updates and nothing else |
| App.UpdateWatch.UserChanged | frontend/src/App.jsx:112-114 | signing out re-arms the resume guard |
| App.UpdateWatch.ResumeEffect | frontend/src/App.jsx:119-132 | the effect posts the resume request at most once until the user signs out: only for a signed-in user, with no prompt open, matching versions, and no earlier attempt since the guard was re-armed |

## Left out

- Numbers are unbounded integers. `Number("1.5")`, exponents, hex, `Infinity`
  and floating-point division are not modelled; a fractional or exponent numeral
  is treated as not finite.
- Characters are Unicode scalars. `\s` and `trim` use the full JavaScript
  whitespace set (tab, line feed, vertical tab, form feed, carriage return,
  space, U+00A0, U+1680, U+2000–U+200A,
  U+2028, U+2029, U+202F, U+205F, U+3000 and U+FEFF). Case-insensitive regex
  matching lowers only A–Z; a regex with `/i` and without `/u` never maps a
  non-ASCII character to an ASCII one, so this is exact for the ASCII patterns
  here. A numeric entity that names a lone surrogate decodes to U+FFFD.
- Lengths count Unicode scalars, where JavaScript's `length` and `slice` count
  UTF-16 code units. For text with characters outside the Basic Multilingual
  Plane, `App.Version7`'s `slice(0, 7)`, the 600-character snippet of
  `Poll.Summarize` and the 8000-character limit of `Poll.ExtractIaaiData` keep
  more characters in the model than in the source, and never split a
  surrogate pair as the source can.
- Js.Get — with duplicate keys in one object the model reads the first
  occurrence. `JSON.parse` keeps the last, so a parsed body or row that repeats
  a key reads differently; object literals built by the program have distinct
  keys and are unaffected.
- Text.ToLower — lowers only A–Z. `String.prototype.toLowerCase` follows the
  full Unicode case mapping: it also lowers non-ASCII capitals (É becomes é) and
  turns U+0130 into two code points, so the length is kept only for the text
  the model lowers. The normalised e-mail addresses of `App.EmailNormal` differ
  for such text. The comparisons with "n/a", "na", "null" and "<img" do not: the
  only non-ASCII characters whose full lowering contains an ASCII letter are
  U+212A (to `k`) and U+0130 (to `i` followed by U+0307), and neither can
  complete one of those words.
- cheerio: `parseVehicleFromRow`, `getNextValueByLabel` and the row selection
  are given as pre-parsed `Row` records and script texts.
- `JSON.parse` is a `parse` parameter that returns a value or fails.
- The SHA-1 of `computeEtag` is a `sha1Hex` parameter.
- Environment variables take their default values or are parameters:
  `BOT_POLL_MS`, `STATUS_MIN_INTERVAL_MS`, `IAAI_BASE_URL`, `APP_BASE_URL`,
  `PUBLIC_BASE_URL`, `PUBLIC_URL` and `PORT`.
- The debug-only branches are left out: `DEBUG_IAAI_HTML` (writing the page to
  disk) and `DEBUG_EMAIL_VEHICLES` (logging, `extractImgSrc`).
- The database, `axios.post` and the clock are results in a `World` record.
  `setInterval` and `clearInterval` are a timer handle option.
- One clock reading `now` serves a whole status request. The source reads
  `Date.now()` a second time inside `refreshContinuousState`
  (`backend/bot.js:95`), so the model does not capture time passing between the
  coalescing check and the 5 s preference cache.
- The stored filter row reads back exactly the values that were written
  (`Filters.RowOf`). A database driver that returns numeric columns as strings
  is not modelled.
- Poll.Summarize — states the head and which tail follows it. The quoted
  600-character snippet and the list of at most 30 keys are given only by its
  definition.
- Concurrency is not modelled. Each async handler runs to completion as one
  step, with its awaited results as inputs.
- SendGrid is left out. `sendVehiclesEmail`, `sendTestEmail` and `sendOtpEmail`
  are external calls; a send's success or error is a parameter of the poll.
- The Express routes other than `/status` are left out: `/settings`, `/run`
  with its catch, and the filter GET route. They are wiring around the modelled
  operations.
- `resetLastSeenForUser` is not modelled. `backend/filters.js:141-145` calls
  it, but `backend/bot.js` does not define it, so the guarded call never runs.
- The filter form's `onChange` and blur handlers, the unmount flag `mounted`,
  `onTypeErrorsChange` and all rendering are left out.
- In `App.jsx`, JSX, modals, `localStorage` and the OTP request handlers are
  left out. The dismissed version is a plain field. Among the modal handlers,
  `acceptUpdate` (`frontend/src/App.jsx:204-220`) posts the resume request a
  second time, outside the resume guard, before it reloads the page.
- In the resume guard and the version check, the test for an empty normalised
  version is dead, because a normalised version is never empty. The method
  bodies keep the test; their contracts leave it out.
- App.Version7Stable: stated only for text without spaces, because a version
  with inner spaces can be trimmed again to a different prefix.
- Before the first version check, the server version is `null` and normalises
  to `"0000000"`. The resume guard then compares `"0000000"` with the build
  version, as the code does.
- When a new server version equals the dismissed one, the version check leaves
  the prompt as it was rather than closing it. The model follows the code.
- The submit body never sends `full_search` or `fuel_type`, so saving from the
  form clears both columns (`FiltersForm.SubmitClearsUnsent`).
- Scrape.DecodeHtmlEntities — has no contract of its own. Its value is proved
  for text without `&`, for one `&lt;` between such texts, and for `&amp;lt;`;
  the other named entities and the numeric references are stated only by its
  definition.
- Scrape.Extract: its contract states only the `limit` bound. The strategy
  order is stated by `Scrape.ExtractVehiclesFromHtml`, which is proved equal
  to it.
- Scrape.StrategyA, Scrape.StrategyB, Scrape.StrategyC, Scrape.StrategyD: each
  contract states the `limit` bound. The deduplication facts are in the lemmas
  next to them.
- Mailer.BuildImageHtml: the `<img>` tag branch is given as its three rewrite
  steps, and its contract speaks only about the plain-URL branch.
- Mailer.VehiclesToHtml: requires an array or a falsy value, because
  `(vehicles || []).map` throws for anything else and the model does not
  carry that throw.
