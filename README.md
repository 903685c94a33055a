# Portfolio site logic, modelled in Dafny

This project models the logic of a personal portfolio site (a Next.js
application written in TypeScript) that can be stated without its
rendering. It covers these parts:

- **Tech-news feed aggregator** (`GET /api/tech-news`). It picks an image
  for every RSS item by a five-step resolver: enclosure, `media:thumbnail`,
  `media:content`, a scan over all keys, then the first `<img>` of the HTML
  body. It takes at most five items per feed, pushes them into one list,
  sorts it in place newest first and keeps fifteen.
- **Relative date** of the news section: "Yesterday", "3 days ago" and
  their Turkish forms.
- **Reading-time estimate** of blog posts.
- **Newsletter sign-up** (`POST /api/subscribe`): email normalisation, the
  email pattern, and the mapping of the insert result to a status.
- **The two cron-triggered newsletter routes**: `notify-post`, which
  announces one post, and `weekly`, which sends the digest. Both use the
  shared bearer/`x-cron-secret` authorization, the same order of checks
  and the same filtering of subscriber addresses.
- **The mail helpers**: bulk send counting, configuration, and the two
  HTML templates.
- **The `Projects` list of the work page**: exclusion, an in-place sort by
  date, a one-based range, and the card fallbacks.
- **The bilingual project-content table.**
- **The sitemap.**

Files:

| file | part |
|---|---|
| `Options.dfy` | Optional values and `??` |
| `JsStrings.dfy` | JavaScript string semantics used throughout: truthiness, `||`, `trim` over the ECMAScript white-space set, ASCII `toLowerCase`, `startsWith`, substring search, `&amp;` replacement, decimal rendering of integers |
| `Sorting.dfy` | Descending in-place insertion sort on an `array`, used by the news route and by the project list |
| `TechNews.dfy` | `src/app/api/tech-news/route.ts` |
| `NewsDates.dfy` | `formatDate` and the date locale of `src/components/news/TechNewsSection.tsx` |
| `ReadingTime.dfy` | `src/utils/readingTime.ts` |
| `Subscribe.dfy` | `src/app/api/subscribe/route.ts` |
| `Email.dfy` | `src/lib/email.ts` |
| `Newsletter.dfy` | What the two newsletter routes share: `isAuthorized`, the subscriber query result, the address filter, the reply shape |
| `NotifyPost.dfy` | `src/app/api/newsletter/notify-post/route.ts` |
| `WeeklyNewsletter.dfy` | `src/app/api/newsletter/weekly/route.ts` |
| `ProjectContent.dfy` | `src/resources/workProjectContent.ts` |
| `WorkProjects.dfy` | `src/components/work/Projects.tsx` |
| `Sitemap.dfy` | `src/app/sitemap.ts` |

External behaviour becomes parameters of the model:

- **Feed results and dates.** Each feed's outcome is an input: parsed
  items, or a failure. Dates are millisecond timestamps, and "now" is a
  parameter.
- **Formatting and URLs.** The `Intl` formatters and WHATWG URL resolution
  (`new URL(s, base).href`, which may throw) are function parameters.
- **The database.** Its answers are inputs: whether a client exists, the
  insert result, the subscriber rows.
- **The mail service.** A predicate on the send's position says which
  sends it rejects.
- **Environment variables** are fields of an `Env` value.
- **The site.** The person's name and base URL form a `Site` value.

The image regexes of the HTML step are modelled with their exact
matching rule. The leftmost `<img` tag (any letter case) that holds a
match wins. Inside it, the greedy `[^>]+` backs off to the last quoted
value before the tag's first `>`.

The dynamic RSS item is a list of `(key, Node)` pairs in `Object.keys`
order. A node is one of:

- absent;
- a string;
- an object with `$.url`, `url`, `href` and `type`;
- an array.

## Model

| member | source | states |
|---|---|---|
| TechNews.UrlFromMediaNode | src/app/api/tech-news/route.ts:49-55 | A missing node, a string, and any node that is not an object or an array of one give nothing; otherwise the result is `$.url` of the examined object, or its `url` when `$.url` is absent |
| TechNews.FirstElementOnly | src/app/api/tech-news/route.ts:51-54 | Only the first element of an array node is examined; later elements never change the result, and a nested array or string first element gives nothing |
| TechNews.NonEmpty | src/app/api/tech-news/route.ts:73-74 | A step yields a URL exactly when its value is a non-empty string, and then yields that value |
| TechNews.EnclosureUrl | src/app/api/tech-news/route.ts:61-68 | An enclosure contributes iff it is an object whose `url ?? href` is non-empty and whose lower-cased type is empty or starts with "image/"; it then contributes `url` when present, else `href` |
| TechNews.ImageTypeIgnoresCase | src/app/api/tech-news/route.ts:65-66 | The type test gives the same answer for a type and its lower-cased form |
| TechNews.ScanCandidate | src/app/api/tech-news/route.ts:84-87 | A property contributes only if its key matches thumbnail/image/media/enclosure case-insensitively, is not exactly "enclosure", and its URL starts with http:// or https://; the URL is the media-node URL, else the string value itself. Conversely, under such a key an http(s) media-node URL is accepted, and so is an http(s) string value when the node has no media URL |
| TechNews.KeyScanIsFirstHit | src/app/api/tech-news/route.ts:83-89 | The key scan answers nothing iff no property contributes, and otherwise the candidate of the first contributing property |
| TechNews.EnclosureKeyNeverScanned | src/app/api/tech-news/route.ts:84 | A property named exactly "enclosure" never changes the scan's result |
| TechNews.ScanKeys | src/app/api/tech-news/route.ts:83-89 | The early-returning `for` loop over the keys returns exactly the key scan's result |
| TechNews.FirstStringIsFirst | src/app/api/tech-news/route.ts:92-98 | The HTML source is the value of the first body field holding a string, even an empty one |
| TechNews.FirstStringNone | src/app/api/tech-news/route.ts:92-98 | With no body field holding a string, the HTML source is "" |
| TechNews.EmptyBodyShadows | src/app/api/tech-news/route.ts:92-98 | An empty string in an earlier body field makes the HTML source empty, whatever the later fields hold |
| TechNews.GtFrom | src/app/api/tech-news/route.ts:38 | Finds the first `>` at or after a position (the end of the `[^>]+` run of an `<img` tag) |
| TechNews.RunEnd | src/app/api/tech-news/route.ts:38 | Finds the end of a `[^"'>]+` run: the first quote or `>` after the position |
| TechNews.CaptureAt | src/app/api/tech-news/route.ts:38-39 | A capture is non-empty and holds no quote and no `>` |
| TechNews.CaptureAtIff | src/app/api/tech-news/route.ts:38-39 | The capture at a position is c exactly when the pattern reads there: the attribute name in any case, a quote, the non-empty run c without quotes or `>`, and a closing quote |
| TechNews.LastCapture | src/app/api/tech-news/route.ts:38-39 | The greedy `[^>]+` picks the last position in the tag with a quoted value: the result is the capture at some position k up to the bound such that no later position up to the bound has one; it is nothing only when no position has one |
| TechNews.LastCaptureFinds | src/app/api/tech-news/route.ts:38-39 | One quoted value anywhere in the tag is enough for the tag to match |
| TechNews.MatchFrom | src/app/api/tech-news/route.ts:38-39 | The regex match from a position is the capture of the first `<img` tag at or after it whose tag text holds a quoted value, every earlier tag holding none; it is nothing iff no tag from there on holds one |
| TechNews.FirstImageFromHtml | src/app/api/tech-news/route.ts:35-46 | When the `src` pattern matches, the image is the resolver's answer for its capture with "&amp;" replaced by "&", against the base; when it does not, there is no image, because the `data-src` pattern never matches alone; a failed resolution gives nothing instead of an exception |
| TechNews.FirstSrcTagDecides | src/app/api/tech-news/route.ts:35-46 | The image is the resolved, unescaped `src` capture of the first `<img` tag that has one, whatever later tags hold |
| TechNews.NoSrcNoImage | src/app/api/tech-news/route.ts:35-46 | When no `<img` tag holds a quoted `src` value, the HTML yields no image, whatever `data-src` values it holds |
| TechNews.NoImgTagNoImage | src/app/api/tech-news/route.ts:37-40 | HTML without an `<img` tag, in any letter case, yields no image |
| TechNews.DataSrcHasSrc | src/app/api/tech-news/route.ts:38-39 | Every quoted `data-src=` value is also a quoted `src=` value five characters further on |
| TechNews.TagDataSrcHasSrc | src/app/api/tech-news/route.ts:38-39 | A tag whose text matches the `data-src` pattern also matches the `src` pattern |
| TechNews.DataSrcSubsumedFrom | src/app/api/tech-news/route.ts:37-39 | Wherever the `data-src` pattern matches, the `src` pattern matches too |
| TechNews.DataSrcNeverAlone | src/app/api/tech-news/route.ts:37-39 | The `data-src` pattern never matches a text the `src` pattern misses |
| TechNews.DataSrcSubsumed | src/app/api/tech-news/route.ts:37-46 | The `data-src` fallback never decides: the image is the resolved `src` capture when there is one, and nothing otherwise |
| TechNews.FirstHitAt | src/app/api/tech-news/route.ts:61-99 | The chain returns step `k` when step `k` yields and every earlier step yields nothing |
| TechNews.FirstHitNone | src/app/api/tech-news/route.ts:61-99 | When no step yields, the chain yields nothing |
| TechNews.StrictPriority | src/app/api/tech-news/route.ts:61-99 | Two items whose steps agree up to a step that yields get the same image, whatever their later steps hold |
| TechNews.EnclosureWins | src/app/api/tech-news/route.ts:61-68 | An enclosure with a non-empty url and type "image/jpeg" decides the image, ahead of any thumbnail |
| TechNews.HtmlFallback | src/app/api/tech-news/route.ts:91-99 | With nothing from the first four steps, the image is the first `<img>` of the HTML source, resolved against the item link or "https://example.com" |
| TechNews.ImageForAsChain | src/app/api/tech-news/route.ts:57-99 | The image equals the early-return chain enclosure, then thumbnail, then media content, then key scan, then HTML |
| TechNews.ExtractImageUrl | src/app/api/tech-news/route.ts:57-100 | The method with its early returns and its loop over the keys returns exactly the specified image |
| TechNews.Description | src/app/api/tech-news/route.ts:118 | A `contentSnippet` string is the description as is, even when empty; without one, the content string's first 200 characters (all of it when shorter); with neither, no description |
| TechNews.ToNewsItem | src/app/api/tech-news/route.ts:113-120 | Title and link are the item's strings, or "" when missing; the date is the item's, or now when missing; the description is the one above; the entry carries the feed's source name and the resolved image |
| TechNews.FeedItems | src/app/api/tech-news/route.ts:109-124 | A failed feed contributes nothing; a parsed one contributes exactly min(5, items) entries |
| TechNews.FeedItemAt | src/app/api/tech-news/route.ts:112-120 | Entry `k` of a feed's contribution is built from the feed's item `k` with its resolved image |
| TechNews.MergedAppend | src/app/api/tech-news/route.ts:107-126 | Merging distributes over concatenation of the feed list |
| TechNews.MergedSnoc | src/app/api/tech-news/route.ts:107-126 | One more feed appends its own contribution to what the earlier feeds gave |
| TechNews.FailedFeedContributesNothing | src/app/api/tech-news/route.ts:122-124 | A failed feed adds no entry and leaves every other feed's entries in place |
| TechNews.FailureIsIsolated | src/app/api/tech-news/route.ts:122-124 | When one feed fails instead, the merged entries lose exactly that feed's contribution |
| TechNews.MergedBound | src/app/api/tech-news/route.ts:112 | At most five entries per feed reach the merged list |
| TechNews.CollectFeed | src/app/api/tech-news/route.ts:109-121 | The `forEach` over a feed's first five items pushes exactly that feed's contribution, in item order |
| TechNews.CollectAll | src/app/api/tech-news/route.ts:107-126 | The loop over the feeds produces every feed's contribution, feed after feed |
| TechNews.Get | src/app/api/tech-news/route.ts:102-135 | The reply has min(15, merged) entries, sorted newest first, taken from the merged entries, and no left-out entry is newer than a kept one; it carries the cache header |
| Sorting.SortDescending | src/app/api/tech-news/route.ts:128 | The in-place sort leaves the array ordered by descending key and a permutation of its old contents |
| Sorting.SortedPrefixIsTop | src/app/api/tech-news/route.ts:128-129 | A prefix of a sorted list plus its rest is the whole list, and nothing in the rest has a larger key than anything in the prefix |
| NewsDates.DiffDays | src/components/news/TechNewsSection.tsx:19-20 | The day count is the floor of the elapsed milliseconds over 86 400 000, negative dates included |
| NewsDates.DateLocale | src/components/news/TechNewsSection.tsx:35 | The date locale is "tr-TR" iff the UI locale is "tr", and "en-GB" otherwise |
| NewsDates.FormatDate | src/components/news/TechNewsSection.tsx:15-28 | Per elapsed-time bucket: an invalid date gives "", under a day the short time, one day "Dün"/"Yesterday", a future date or two to six days "<n> gün önce"/"<n> days ago", seven days or more the day-month-year form |
| NewsDates.FutureDateReadsNegative | src/components/news/TechNewsSection.tsx:23 | A date in the future is rendered as a negative day count |
| NewsDates.DaysAgoNamesTheCount | src/components/news/TechNewsSection.tsx:23 | From two to six days, the English text is that single digit followed by " days ago" |
| JsStrings.IntToString | src/components/news/TechNewsSection.tsx:23 | The rendering of an integer starts with '-' iff it is negative; every other character is a decimal digit, and a negative number has at least one |
| JsStrings.IntToStringRoundTrip | src/components/news/TechNewsSection.tsx:23 | The digits after the optional '-' are non-empty, have no leading zero and read back as the absolute value |
| JsStrings.NatToStringRoundTrip | src/components/news/TechNewsSection.tsx:23 | Reading back the rendered digits gives the number |
| ReadingTime.WordEnd | src/utils/readingTime.ts:6 | A word runs to the next white-space character or the end |
| ReadingTime.GapEnd | src/utils/readingTime.ts:6 | A gap of `\s+` runs to the next non-white-space character or the end |
| ReadingTime.SplitWs | src/utils/readingTime.ts:6 | `split(/\s+/)` always yields at least one piece |
| ReadingTime.Minutes | src/utils/readingTime.ts:7 | The minutes are the ceiling of words over 200 |
| ReadingTime.CalculateReadingTime | src/utils/readingTime.ts:4-9 | The estimate is at least one minute for every text |
| ReadingTime.SplitCountsWords | src/utils/readingTime.ts:6 | The split of a text that starts and ends with a word has one piece per word |
| ReadingTime.SplitLength | src/utils/readingTime.ts:6 | For a trimmed text, the split has one piece per word, and one piece when there is no word |
| ReadingTime.PaddingAddsNoWords | src/utils/readingTime.ts:6 | Leading and trailing white space adds no word |
| ReadingTime.TrimKeepsWords | src/utils/readingTime.ts:6 | Trimming keeps the word count |
| ReadingTime.ReadingTimeByWords | src/utils/readingTime.ts:5-8 | The estimate is the ceiling over 200 of the number of words, counted independently of the split, with an empty text counting as one word |
| ReadingTime.BlankReadsInOneMinute | src/utils/readingTime.ts:6-7 | Empty or white-space-only content reads in one minute |
| ReadingTime.MinutesMonotone | src/utils/readingTime.ts:7 | More words never give fewer minutes |
| ReadingTime.OneMinuteBoundary | src/utils/readingTime.ts:5-7 | 1 to 200 words read in one minute, 201 words in two |
| JsStrings.Trim | src/utils/readingTime.ts:6 | The trimmed text neither starts nor ends with white space |
| JsStrings.TrimIsInfix | src/utils/readingTime.ts:6 | The trimmed text is a contiguous part of the input with only white space cut on both sides |
| JsStrings.TrimOfTrimmed | src/utils/readingTime.ts:6 | A text without outer white space is its own trim |
| Subscribe.NormalizeEmail | src/app/api/subscribe/route.ts:12 | A non-string email becomes ""; a string becomes its trim, character by character lower-cased, with no outer white space |
| Subscribe.NormalizeIdempotent | src/app/api/subscribe/route.ts:12 | Normalising a normalised address changes nothing |
| JsStrings.Lower | src/app/api/subscribe/route.ts:12 | Lower-casing keeps the length and maps each character by the ASCII rule |
| JsStrings.LowerIdempotent | src/app/api/subscribe/route.ts:12 | Lower-casing twice equals lower-casing once |
| Subscribe.AtIndex | src/app/api/subscribe/route.ts:5 | Finds the first '@', or the length when there is none |
| Subscribe.ValidEmailIff | src/app/api/subscribe/route.ts:5 | The computed check accepts an address iff it matches `^[^\s@]+@[^\s@]+\.[^\s@]+$` read as a pattern |
| Subscribe.ValidEmailMatches | src/app/api/subscribe/route.ts:5 | Every accepted address matches the pattern |
| Subscribe.MatchesAreValid | src/app/api/subscribe/route.ts:5 | Every address matching the pattern is accepted |
| Subscribe.Post | src/app/api/subscribe/route.ts:9-55 | Unparseable JSON gives 500. An invalid address gives 400, and a missing client 503, both before any insert. The insert is attempted iff the address is valid and the client exists; it stores the normalised address with source "blog". Afterwards 200 iff inserted; 409 iff the error code is 23505, with "This email is already subscribed."; 500 iff the insert failed with any other code or none, with "Could not subscribe. Please try again."; the success payload appears iff the status is 200 |
| Subscribe.StoredAddressIsCanonical | src/app/api/subscribe/route.ts:12-33 | An address that reaches the insert matches the pattern and is already normalised |
| Subscribe.ResubmissionConflicts | src/app/api/subscribe/route.ts:35-41 | Re-submitting an address the table already holds gives 409 |
| Email.IsEmailConfigured | src/lib/email.ts:9-11 | Mail is configured iff the API key is non-empty, and then the client exists |
| Email.FromAddress | src/lib/email.ts:6 | The sender address is the configured one when non-empty, else the default `onboarding@resend.dev`; never empty |
| Email.Rejections | src/lib/email.ts:27 | The number of rejected sends is at most the number of sends |
| Email.NoRejectionsIff | src/lib/email.ts:27-28 | No send is counted rejected iff none was rejected |
| Email.SendBulkEmails | src/lib/email.ts:13-29 | Without a client, the failure "Email service not configured (RESEND_API_KEY)." and no send. Otherwise one request per recipient in order, addressed to that recipient alone, with the shared sender, subject and body; total is the recipient count, sent is total minus rejections, and success holds iff no send was rejected |
| Email.DigestShowsSummary | src/lib/email.ts:31-45 | A non-empty summary appears in the digest inside the highlights section |
| Email.DigestFallsBack | src/lib/email.ts:32-34 | Without a summary the digest shows the fixed line sending readers to the News page |
| Email.NewPostLinksPost | src/lib/email.ts:48-59 | The new-post mail holds a link whose target is the post URL and whose text is the title, both verbatim |
| JsStrings.Or | src/app/api/newsletter/notify-post/route.ts:31-32 | `a \|\| b` is `a` when `a` is a non-empty string and `b` otherwise |
| Newsletter.CronSecret | src/app/api/newsletter/notify-post/route.ts:6 | The secret is CRON_SECRET when non-empty, else NEWSLETTER_CRON_SECRET; a secret is set iff either is non-empty |
| Newsletter.BearerToken | src/app/api/newsletter/notify-post/route.ts:11 | There is a token iff the header starts with the case-sensitive "Bearer ", and the header is that prefix followed by the token |
| Newsletter.AuthorizedIff | src/app/api/newsletter/notify-post/route.ts:8-14 | A request is authorized iff a secret is set and the header is "Bearer " followed by the secret or `x-cron-secret` equals the secret |
| Newsletter.Recipients | src/app/api/newsletter/notify-post/route.ts:71 | An address is mailed iff it is non-empty and some row holds it, and there are no more recipients than rows |
| Newsletter.RecipientsMultiplicity | src/app/api/newsletter/notify-post/route.ts:71 | Each non-empty address is mailed exactly as many times as rows hold it, and "" never |
| Newsletter.RecipientsAppend | src/app/api/newsletter/notify-post/route.ts:71 | The filter keeps row order: the recipients of two batches of rows are those of the first, then those of the second |
| Newsletter.NoAddressNoRecipient | src/app/api/newsletter/weekly/route.ts:48-50 | Rows without a usable address leave nobody to mail |
| Newsletter.ReportOf | src/app/api/newsletter/notify-post/route.ts:75-80 | The reply passes success, sent and total of the bulk send through |
| NotifyPost.PostUrl | src/app/api/newsletter/notify-post/route.ts:31 | The post URL is `url` when non-empty, else base + "/blog/" + slug when the slug is non-empty, else absent; it is never empty |
| NotifyPost.PostTitle | src/app/api/newsletter/notify-post/route.ts:32 | The title is the given one when non-empty, else "New blog post" |
| NotifyPost.SubjectIsMojibake | src/app/api/newsletter/notify-post/route.ts:72 | The subject as written always differs from the intended one, is two characters longer, and its three odd characters are the UTF-8 bytes of an en dash read as Windows-1252 |
| NotifyPost.Announce | src/app/api/newsletter/notify-post/route.ts:67-80 | One send per non-empty address, each with the post subject and the new-post HTML; total is the recipient count, sent is at most total, success iff no send was rejected |
| NotifyPost.AnnounceSentCount | src/app/api/newsletter/notify-post/route.ts:75-80 | The reported sent count is the recipient count less the rejected sends |
| NotifyPost.Deliver | src/app/api/newsletter/notify-post/route.ts:41-80 | Missing mail configuration gives 503, then missing database 503. With both configured: a failed query gives 200 "Database error", no rows 200 "No subscribers.", and rows give the announcement to them. Anything is sent only in that last case |
| NotifyPost.Post | src/app/api/newsletter/notify-post/route.ts:16-81 | 401 "Unauthorized" iff unauthorized. Then bad JSON gives 400 "Invalid JSON body. Use { title, url } or { slug }.", a JSON `null` body crashes, and no URL or slug gives 400 "Provide post url or slug in body.". An authorized object body with a post URL is delivered with that URL and title, and a send or a report happens only then |
| NotifyPost.SlugLinksIntoBlog | src/app/api/newsletter/notify-post/route.ts:31-73 | A post named by slug alone is announced with a link under the site's /blog/ path |
| WeeklyNewsletter.SendDigest | src/app/api/newsletter/weekly/route.ts:47-60 | One send per non-empty address with subject "Weekly update from " + name and the digest without highlights; total is the recipient count, sent is at most total, success iff no send was rejected |
| WeeklyNewsletter.SendDigestSentCount | src/app/api/newsletter/weekly/route.ts:54-60 | The reported sent count is the recipient count less the rejected sends |
| WeeklyNewsletter.Get | src/app/api/newsletter/weekly/route.ts:16-61 | 401 "Unauthorized" iff unauthorized; then 503 for missing mail configuration, then for a missing database; only 200, 401 or 503. With everything configured: a failed query gives 200 "Database error", no rows 200 "No subscribers.", and rows get the digest. A send or a report happens only in that last case |
| WeeklyNewsletter.DigestHasNoHighlights | src/app/api/newsletter/weekly/route.ts:53 | Every weekly mail is the digest built without a news summary, so it carries the fallback paragraph |
| WeeklyNewsletter.BlankAddressesSendNothing | src/app/api/newsletter/weekly/route.ts:48-60 | Subscribers whose addresses are all null or empty give a successful report of 0 of 0 |
| ProjectContent.ParseSlug | src/resources/workProjectContent.ts:3-330 | A slug names a project iff it is exactly one of the four keys of the table |
| ProjectContent.GetProjectContent | src/resources/workProjectContent.ts:332-336 | An unknown slug gives ""; a known one gives the Turkish text for "tr" and the English text otherwise |
| ProjectContent.GetProjectContentAsWritten | src/resources/workProjectContent.ts:332-336 | The lookup as written gives a string for every key of the table |
| ProjectContent.AsWrittenUndefinedOnInheritedKeys | src/resources/workProjectContent.ts:333-335 | For a name inherited from `Object.prototype` the lookup as written returns `undefined` where "" is meant |
| ProjectContent.CorrectedAgreesElsewhere | src/resources/workProjectContent.ts:332-336 | On every other slug the corrected lookup returns what the written one returns |
| ProjectContent.FallbackHidesUndefined | src/components/work/Projects.tsx:39 | Behind `\|\| post.content` both lookups give the same card content |
| WorkProjects.WithoutSlugs | src/components/work/Projects.tsx:25 | A post is kept iff its slug is not excluded, by exact match; the result is a sub-multiset of the input |
| WorkProjects.SliceIndex | src/components/work/Projects.tsx:33 | A slice bound in range is itself; a negative bound counts from the end, and is 0 when it reaches past the start; a bound past the length is the length |
| WorkProjects.JsSlice | src/components/work/Projects.tsx:33 | `slice` always gives a contiguous part of the list, and the plain sub-sequence when the bounds are in range |
| WorkProjects.Displayed | src/components/work/Projects.tsx:32-34 | The displayed list is always a contiguous part of the sorted list, and the whole list when no range is given |
| WorkProjects.OpenRangeToEnd | src/components/work/Projects.tsx:33 | A range without an end shows from its first position, counted from one, to the end |
| WorkProjects.RangeIsOneBased | src/components/work/Projects.tsx:32-34 | The range `[a, b]` shows positions a to b counted from one: b − a + 1 projects |
| WorkProjects.ZeroStartShowsLast | src/components/work/Projects.tsx:33 | A range starting at 0 slices from −1 and shows only the last project |
| WorkProjects.SelectProjects | src/components/work/Projects.tsx:21-34 | The sorted list is a permutation of the posts left after exclusion, newest first; the shown list is its range slice |
| WorkProjects.ExcludedNeverShown | src/components/work/Projects.tsx:23-34 | An excluded slug appears nowhere in the shown list, whatever the range, and every shown project is a post |
| WorkProjects.AvatarsFor | src/components/work/Projects.tsx:49-53 | The contributor list when non-empty; otherwise exactly the team's avatar list when there is one, and none when there is not |
| WorkProjects.Cards | src/components/work/Projects.tsx:38-58 | One card per shown post in order; only the first two have priority; each links to /work/ + slug |
| WorkProjects.UnknownProjectKeepsOwnContent | src/components/work/Projects.tsx:39 | A post the content table does not know shows its own content |
| WorkProjects.KnownProjectShowsLocalizedText | src/components/work/Projects.tsx:39 | A known project with a non-empty text in the locale shows that text |
| Sitemap.ActiveRoutes | src/app/sitemap.ts:19-21 | A route produces an entry iff its configuration value is true |
| Sitemap.ActiveRoutesAppend | src/app/sitemap.ts:19-21 | The filter keeps key order: it distributes over concatenation of the configuration |
| Sitemap.ActiveRoutesMultiplicity | src/app/sitemap.ts:19-21 | Each route is listed as many times as it is enabled, so once for an object's keys |
| Sitemap.RouteEntry | src/app/sitemap.ts:23-31 | The home route is the base URL, weekly, at priority 1.0; any other route is base URL + route, monthly, at 0.9; every route entry is dated at the generation time |
| Sitemap.RouteEntries | src/app/sitemap.ts:23-31 | One entry per active route, in order |
| Sitemap.PostEntries | src/app/sitemap.ts:5-17 | One monthly entry per post under base/section/slug, dated by its publication |
| Sitemap.Sitemap | src/app/sitemap.ts:4-34 | The sitemap has as many entries as active routes, blog posts and work projects together |
| Sitemap.SitemapLayout | src/app/sitemap.ts:33 | Route entries come first, then blog posts at 0.8 under /blog/, then work projects at 0.7 under /work/, each in input order |
| Sitemap.AllUrlsUnderBase | src/app/sitemap.ts:6-26 | Every URL of the sitemap starts with the base URL |
| Sitemap.RouteFrequencies | src/app/sitemap.ts:24-29 | Among route entries, the weekly ones are exactly those at full priority, and one exists iff the home route is active |
| Sitemap.OnlyHomeIsWeekly | src/app/sitemap.ts:27-33 | In the whole sitemap, weekly iff priority 1.0, and there is a weekly entry iff the home route is enabled |

## Left out

- Network and XML parsing are inputs: the RSS fetching, the 10-second timeout, the User-Agent header and the custom-field mapping of the parser. Each feed is given as parsed items or as a failure.
- TechNews.Get: `Promise.all` pushes the feeds' items in completion order, and the sort is stable in JavaScript. The model merges in feed order and states nothing about the order of equal dates. Which entries a tie at the cut keeps is therefore not pinned down.
- TechNews.Get: the outer `try/catch` of the route, which answers `{ items: [] }` on an unexpected error, is not modelled. Nothing in the modelled part throws.
- Dates are integer timestamps. `Date` parsing, `NaN` comparisons inside the sort and `toISOString` are not modelled. An item without a date is dated "now", given as a parameter.
- NewsDates.FormatDate: the `Intl.DateTimeFormat` output is a parameter. An unparseable date is modelled as no date, which yields the `catch` branch's "".
- URL resolution (`new URL(s, base).href`) is a function parameter that may fail. WHATWG URL parsing is not modelled.
- JsStrings.Lower: lower-cases the ASCII letters only. `toLowerCase` on other letters (for example in an email address) is not modelled.
- TechNews.UrlFromMediaNode: nodes other than missing, string, `{ $: { url }, url }`-objects and arrays are not modelled. Such nodes include numbers, booleans and objects with non-string `url`.
- TechNews.ToNewsItem: non-string values of `title` and `link` are treated as missing.
- TechNews.Description: strings are sequences of characters, so `slice(0, 200)` keeps 200 characters where JavaScript keeps 200 UTF-16 code units; the two differ for text outside the Basic Multilingual Plane. A non-string `contentSnippet` or `content` is treated as missing.
- NotifyPost.Announce: the model sends the subject with the en dash (`NotifyPost.Subject`), the evidently intended one; the source sends the garbled `NotifyPost.SubjectAsWritten` (see Findings).
- Supabase and Resend clients are inputs: whether a client exists, the insert error code, the subscriber rows, which sends are rejected. The actual queries and HTTP calls are not modelled.
- Environment variables are fields of an `Env` value read once.
- NotifyPost.Post: only strings or missing values are modelled for `title`, `url` and `slug`. A JSON `null` body crashes the route (an uncaught exception, 500), and the model records it as such.
- Subscribe.Post: the body is unparseable JSON, or an object whose `email` is a string or not. The `null` body takes the non-string path, as the source's `body?.email` does.
- The four project texts of the content table are a parameter. Only the choice of slug and language is modelled.
- WorkProjects.SelectProjects: projects with equal publication dates may come out in any order; JavaScript's stable sort keeps their input order, which the model does not state.
- WorkProjects.AvatarsFor: the contributor map is a Dafny map, so its inherited `Object.prototype` names are not modelled.
- JSX, styling, React state and effects, and the `ProjectCard` component are not modelled. Nor are image generation and the static resources.
- `getPosts` file reading is not modelled. Posts are given as values with the metadata the model reads.
- Sitemap.RouteEntry: the route entries' `lastModified`, `new Date().toISOString()`, is a string parameter.
- Sitemap.Sitemap: priorities are integers in hundredths rather than floating-point numbers.

## Findings

| source | as written | input that shows it | evidently intended | confidence | as-written member | corrected member |
|---|---|---|---|---|---|---|
| src/app/api/newsletter/notify-post/route.ts:72 | The subject template holds the three characters "â€“" between title and name | any post: the subject reads "New post: T â€“ Name" | an en dash: "New post: T – Name" (the UTF-8 bytes E2 80 93 of U+2013 were read back as Windows-1252) | not executed; follows from the source text | NotifyPost.SubjectAsWritten (shown by NotifyPost.SubjectIsMojibake) | NotifyPost.Subject |
| src/resources/workProjectContent.ts:332-336 | `content[slug]` finds inherited `Object.prototype` members, so `!entry` passes and `entry.tr`/`entry.en` is `undefined` despite the `string` return type | slug "constructor" (or "toString", "__proto__", ...) | "" for every slug that is not a key of the table | not executed; both callers in view, `src/components/work/Projects.tsx:39` and `src/app/work/[slug]/page.tsx:78`, mask it with `\|\| post.content` | ProjectContent.GetProjectContentAsWritten (shown by ProjectContent.AsWrittenUndefinedOnInheritedKeys) | ProjectContent.GetProjectContent (with ProjectContent.CorrectedAgreesElsewhere and ProjectContent.FallbackHidesUndefined) |
