# VisionTech newsletter — a Dafny model

VisionTech Blogs is a Next.js application with a Mongoose back end. It
publishes tech newsletters and mails each new one to its subscribers.
This project models its core in Dafny and proves properties of the model.

The back end:

- **Subscriber collection.** Emails are stored lower-cased and trimmed.
  Email and unsubscribe token each have a unique index. A `pre('save')`
  hook gives a document a random 32-byte hex token when it has none.
- **Subscribe handlers.** There are two identical POST handlers, each a
  small state machine:
  - a body that is not JSON is a server error;
  - a missing email is refused;
  - an active record is a duplicate;
  - any other record is reactivated;
  - otherwise a new active record is created.
- **Subscriber counts** per status (the stats endpoint).
- **Bearer-token guard.** It exists in a TypeScript and a JavaScript
  twin, and the two classify verification errors differently.
- **Newsletter POST handler.** It runs the guard, parses the body, checks the title,
  inserts, then hands the active subscribers to the email service
  without waiting for it.
- **Email service.** It builds one HTML body, one text body and one
  Unsubscribe link per subscriber and sends them one by one. A failure
  is recorded and the loop goes on.
- **Database URI.** It is cleaned of paste debris and its scheme is
  validated.

The front end:

- **Home feed:**
  - keyword categories and the category filter;
  - pages of nine, the five-button page window and Previous/Next;
  - the "New" badge and the results line.
- **Newsletter cards:** the excerpt, with HTML tags stripped, and the
  image fallback.
- **Admin editor page:**
  - the `<style>css</style>html` content string, which submit and
    preview build alike;
  - the form's change handler;
  - upload-URL normalisation.

## How it is modelled

Pure code becomes datatypes, functions and lemmas. Stateful code becomes
classes whose methods are proved against specification functions:

- `SubscriberStore.Store` holds the collection as a map keyed by the
  normalised email. `Subscribe` is proved equal to `HandleSubscribe`.
- `NewsletterStore.NewsletterCollection` holds the newsletters.
- `Dispatch.EmailService` holds the transporter. Its loop is proved
  equal to `TsResults`.
- `Feed.FeedState` holds the filter and the current page.

What the model cannot see becomes a parameter:

- The random bytes of the token.
- The clock (`now`).
- The JWT verifier: an oracle from token to outcome.
- The mail transport: an oracle from attempt index and mail to outcome.
- The editor's getters.
- Whether the JWT library loaded.

Modules by file:

| file | module |
|---|---|
| `wrappers.dfy` | `Wrappers` |
| `js_strings.dfy` | `JsStrings`: the JavaScript string semantics used |
| `token.dfy` | `Token` |
| `records.dfy` | `Records` |
| `sorting.dfy` | `Sorting` |
| `subscriber_store.dfy` | `SubscriberStore` |
| `stats.dfy` | `SubscriberStats` |
| `auth.dfy` | `AccessGuard` |
| `email_render.dfy` | `EmailRender` |
| `dispatch.dfy` | `Dispatch` |
| `db_config.dfy` | `DbConfig` |
| `newsletter_store.dfy` | `NewsletterStore` |
| `feed.dfy` | `Feed` |
| `excerpt.dfy` | `Excerpts` |
| `editor.dfy` | `NewsletterEditor` |

Decisions on how the source was read:

- **Which twin the routes use.** The routes import
  `../../../lib/newsletterBackend` without an extension, and both
  `newsletterBackend.ts` and `newsletterBackend.js` export the same names.
  Which file is loaded depends on the bundler's extension order. The
  model takes the TypeScript file as an assumption, not a fact of the
  source. `NewsletterCollection.Post` takes the guard's result
  generically, `NoTokenNoNewsletter` and `NoTokenNoNewsletterJs` state
  the no-token refusal for each guard, and both email services are
  modelled.
- **How lookups are normalised.** Mongoose applies the schema's
  `lowercase` and `trim` setters to query filters too. So
  `findOne({ email })` looks up `Normalize(email)`.
- **Whitespace-only email.** An email of only spaces passes `!email`,
  then normalises to "". The `required` validator then fails the save,
  and the client sees 500 "Server error". The model reproduces this.
- **Token collisions.** A fresh token that collides with a stored one
  fails the unique index. The model gives a 500 here too.

## Model

| member | source | states |
|---|---|---|
| Token.HexEncode | src/lib/newsletterBackend.ts:130 | `toString('hex')` gives two lower-case hex digits per byte |
| Token.HexRoundTrip | src/lib/newsletterBackend.ts:130 | decoding the hex string of any byte sequence gives the bytes back |
| Token.HexEncodeInjective | src/lib/newsletterBackend.ts:130 | different random bytes give different tokens |
| Token.Generate | src/lib/newsletterBackend.ts:130 | a generated token is 64 lower-case hex digits |
| Records.Normalize | src/lib/newsletterBackend.ts:113 | a stored email has no capital letter and no whitespace at either end, and is no longer than the input |
| Records.NormalizeIdempotent | src/lib/newsletterBackend.ts:113 | applying the setters twice is applying them once |
| Records.NormalizedIffFixed | src/lib/newsletterBackend.ts:113 | an email is left unchanged by the setters exactly when it is already in stored form |
| Records.NormalizeEitherOrder | src/lib/newsletterBackend.ts:113 | lower-casing then trimming equals trimming then lower-casing |
| Sorting.SortDesc | src/app/api/newsletters/route.ts:11 | the result is ordered by descending key and is a permutation of the input |
| SubscriberStore.WithToken | src/lib/newsletterBackend.ts:128-133 | after the hook every record has a token; an existing token is kept, and a missing one becomes a fresh hex token |
| SubscriberStore.TokenAssignedOnce | src/lib/newsletterBackend.ts:128-133 | a second save never replaces a token, whatever its random bytes |
| SubscriberStore.SubscriberDoc.PreSave | src/lib/newsletterBackend.ts:128-133 | the document after the hook is `WithToken` of the document before it |
| SubscriberStore.SubscriberDoc.Create | src/app/api/subscribers/route.ts:39 | a created document holds the normalised email, the name and status given, no token yet, and the current time |
| SubscriberStore.SaveKeepsInvariant | src/lib/newsletterBackend.ts:112-133 | a successful save keeps one record per normalised email, a token on every record and distinct tokens |
| SubscriberStore.SubscribeKeepsInvariant | src/app/api/subscribers/route.ts:22-45 | every subscribe request, whatever its body, keeps the collection invariant |
| SubscriberStore.SubscribeKeyKeepsInvariant | src/app/api/subscribers/route.ts:28-40 | the lookup, reactivate and create steps keep the invariant for any stored-form email |
| SubscriberStore.MalformedBodyIsServerError | src/app/api/subscribers/route.ts:24-43 | a body that is not JSON gives the catch block's 500 "Server error" and changes nothing |
| SubscriberStore.HandleSubscribeKeepsInvariant | src/app/api/subscribers/route.ts:22-45 | the whole handler, including the unparseable-body path, keeps the collection invariant |
| SubscriberStore.MissingEmailRejected | src/app/api/subscribers/route.ts:25-26 | a missing or empty email gives 400 "Email is required" and changes nothing |
| SubscriberStore.ActiveDuplicateRejected | src/app/api/subscribers/route.ts:28-31 | an email with an active record gives 400 "Already subscribed" and changes nothing |
| SubscriberStore.InactiveReactivated | src/app/api/subscribers/route.ts:32-35 | a non-active record becomes active with 200 "Subscription reactivated"; nothing else changes and its token is kept |
| SubscriberStore.NewEmailCreated | src/app/api/subscribers/route.ts:39-40 | a new email adds exactly one active record (name or "", fresh token, now); the reply is 201 with it |
| SubscriberStore.TokenCollisionFails | src/app/api/subscribers/route.ts:39-43 | a failed insert (empty email, or the fresh token already taken) gives 500 "Server error" and stores nothing |
| SubscriberStore.WriteKeepsOneRecord | src/app/api/subscribers/route.ts:33-40 | saving a record under its own email keeps the collection keyed by email, with one record for that email and at most one more record |
| SubscriberStore.SuccessLeavesOneActiveRecord | src/app/api/subscribers/route.ts:28-40 | after 200 or 201 exactly one record holds the email and it is active; old records and tokens survive and at most one record is added |
| SubscriberStore.TokensNeverChange | src/lib/newsletterBackend.ts:128-133 | no subscribe request removes a record or changes a stored token |
| SubscriberStore.ResubscribeIsConflict | src/app/api/subscribers/route.ts:28-31 | subscribing again after a success, with the address in any case or padding, is 400 "Already subscribed" |
| SubscriberStore.Store.Save | src/lib/newsletterBackend.ts:112-133 | `doc.save()` succeeds exactly when `SaveSpec` does and then writes the hooked record under its email |
| SubscriberStore.Store.Subscribe | src/app/api/subscribers/route.ts:22-45 | the reply and the new collection are those of `HandleSubscribe`, and the invariant is kept |
| SubscriberStore.Store.SubscribeAddress | src/app/api/subscribers/route.ts:28-40 | after validation the handler behaves as `SubscribeKey` on the normalised email |
| SubscriberStore.Store.Reactivate | src/app/api/subscribers/route.ts:32-35 | an inactive record is set active and saved, and the reply is that of `SubscribeKey` |
| SubscriberStore.Store.Insert | src/app/api/subscribers/route.ts:39-40 | an unknown email is created as a new active record, and the reply is that of `SubscribeKey` |
| SubscriberStore.Store.PostSubscribe | src/app/api/subscribers/subscribe/route.ts:6-29 | the second subscribe path behaves exactly as the first |
| SubscriberStore.Store.Find | src/app/api/newsletters/route.ts:44 | the result is exactly the stored records matching the filter, each once |
| SubscriberStore.Store.ListBySignupDate | src/app/api/subscribers/route.ts:9 | every stored record once, newest signup first |
| SubscriberStore.Store.ActiveSubscribers | src/app/api/newsletters/route.ts:44 | exactly the active records, each once |
| SubscriberStats.TotalIsSize | src/app/api/subscribers/stats/route.ts:11 | the unfiltered count is the number of records |
| SubscriberStats.StatusCountsPartitionTotal | src/app/api/subscribers/stats/route.ts:11-17 | active + unsubscribed + pending equals total, and each is at most total |
| SubscriberStats.InsertCounts | src/app/api/subscribers/stats/route.ts:11-14 | a record stored under a new key raises a filter's count by one exactly when it matches, and by nothing otherwise |
| SubscriberStats.NewSubscriberCounted | src/app/api/subscribers/stats/route.ts:11-14 | a new subscription raises total and active by one and leaves the other counts alone |
| AccessGuard.HeaderValue | src/lib/newsletterBackend.ts:149 | the header, or "" when it is absent |
| AccessGuard.BearerToken | src/lib/newsletterBackend.ts:150 | a token is read exactly when the header starts with "Bearer ", and it is the rest of the header |
| AccessGuard.TokenPresentIff | src/lib/newsletterBackend.ts:150-153 | the `!token` test passes exactly for "Bearer " followed by at least one character |
| AccessGuard.BearerRoundTrip | src/lib/newsletterBackend.ts:150 | the token of "Bearer " + t is t |
| AccessGuard.TsErrorStatus | src/lib/newsletterBackend.ts:170 | 401 exactly for "jwt malformed" and "invalid signature", 500 for everything else |
| AccessGuard.TsNoTokenIff | src/lib/newsletterBackend.ts:148-153 | the TypeScript guard answers 401 "No token provided" exactly when the header carries no token |
| AccessGuard.TsAuthorizedIff | src/lib/newsletterBackend.ts:154-167 | it authorises exactly for a token whose payload is an object; the user's email is the claim exactly when that is a string |
| AccessGuard.TsStringPayloadRefused | src/lib/newsletterBackend.ts:156-158 | a string payload is 401 "Invalid token payload" |
| AccessGuard.TsErrorClassified | src/lib/newsletterBackend.ts:168-171 | a verifier error keeps an Error's message (else "Invalid token"), with 401 only for the two client messages, otherwise 500 |
| AccessGuard.TsStatusesAreClientOrServer | src/lib/newsletterBackend.ts:148-172 | every refusal is 401 or 500, and a 500 always comes from a verifier error |
| AccessGuard.JsMessage | src/lib/newsletterBackend.js:88 | the JavaScript guard's message is never empty |
| AccessGuard.JsNoToken | src/lib/newsletterBackend.js:77-82 | without a token the JavaScript guard too answers 401 "No token provided" |
| AccessGuard.JsAuthorizedIff | src/lib/newsletterBackend.js:83-86 | it authorises exactly when the library loaded and the token verifies; the user is the payload itself |
| AccessGuard.JsErrorClassified | src/lib/newsletterBackend.js:87-91 | a refusal is 500 exactly for "JWT library not available", 401 otherwise, with a non-empty message |
| AccessGuard.JsLibraryMissing | src/lib/newsletterBackend.js:84-90 | with a token but no library the reply is 500 "JWT library not available" |
| AccessGuard.TwinsDisagreeOnErrors | src/lib/newsletterBackend.ts:168-171 | an expired token is 500 in TypeScript and 401 in JavaScript; an Error with an empty message passes through in one and becomes "Invalid token" in the other |
| EmailRender.Interpolate | src/lib/newsletterBackend.ts:221 | an unset variable renders as "undefined" |
| EmailRender.LinkCarriesToken | src/lib/newsletterBackend.ts:221 | with FRONTEND_URL the link is that URL, "/?token=" and exactly the subscriber's token; without it, BACKEND_URL (or "undefined") |
| EmailRender.GreetingIff | src/lib/newsletterBackend.ts:222 | "Hello," exactly for an empty name, otherwise "Hi name," |
| EmailRender.DescriptionBlock | src/lib/newsletterBackend.ts:241 | the header paragraph is empty exactly when the description is |
| EmailRender.ImageBlock | src/lib/newsletterBackend.ts:246 | the image tag is empty exactly when the image URL is |
| EmailRender.HtmlParts | src/lib/newsletterBackend.ts:223-255 | the template's fifteen parts hold the description block, greeting, content, image block and link at fixed places |
| EmailRender.HtmlShowsGreetingContentAndLink | src/lib/newsletterBackend.ts:244-250 | the HTML contains the greeting paragraph, the content and the subscriber's Unsubscribe anchor |
| EmailRender.DescriptionShownIffPresent | src/lib/newsletterBackend.ts:241 | a description appears as its paragraph; without one the HTML is shorter by exactly that block |
| EmailRender.ImageShownIffPresent | src/lib/newsletterBackend.ts:246 | an image URL appears as its tag; without one the HTML is shorter by exactly that block |
| EmailRender.EachSubscriberGetsOwnLink | src/lib/newsletterBackend.ts:221-250 | with FRONTEND_URL, subscribers with different tokens receive different HTML |
| EmailRender.TextStartsWithTitleEndsWithContent | src/lib/newsletterBackend.ts:258-260 | the text body's first line is a one-line title and it ends with the content |
| EmailRender.MailFor | src/lib/newsletterBackend.ts:196-202 | the mail goes to the subscriber, with the title as subject and FROM_EMAIL or the default as sender |
| Dispatch.TransportFor | src/lib/newsletterBackend.ts:183-190 | a transporter exists exactly when EMAIL_USER and EMAIL_PASS are both set |
| Dispatch.EmailService.constructor | src/lib/newsletterBackend.ts:179-190 | the service starts with the transporter `TransportFor` gives and the source's mail template |
| Dispatch.EmailService.SendNewsletter | src/lib/newsletterBackend.ts:192-218 | the loop's results are `TsResults`: one per subscriber, in order |
| Dispatch.TsResultsAccounting | src/lib/newsletterBackend.ts:203-215 | result i has subscriber i's email and succeeds exactly when configured and delivered; a success has the messageId, a failure the error message |
| Dispatch.TsUnconfiguredAllFail | src/lib/newsletterBackend.ts:206-208 | without a transporter every result is "No email transporter configured" and the transport is never consulted |
| Dispatch.TsFailureIsolation | src/lib/newsletterBackend.ts:194-216 | a subscriber's result depends only on its own attempt; with a pure transport oracle this holds by construction, and the per-send catch is what `TsResultsAccounting` states |
| Dispatch.TsResultsPrefix | src/lib/newsletterBackend.ts:192-217 | sending to a longer list extends the results for the shorter one |
| Dispatch.JsMessageId | src/lib/newsletterBackend.js:126 | a JavaScript success always records a non-empty id: the transport's or "sent" |
| Dispatch.EmailServiceJs.constructor | src/lib/newsletterBackend.js:96-108 | SendGrid is off, the transporter is `TransportFor` and the template is the source's |
| Dispatch.EmailServiceJs.SendNewsletter | src/lib/newsletterBackend.js:109-132 | the loop's results are `JsResults` |
| Dispatch.JsResultsAccounting | src/lib/newsletterBackend.js:120-129 | the same accounting, with "sent" for a missing id and the transporter message when unconfigured |
| Dispatch.TwinsAgreeOnSuccess | src/lib/newsletterBackend.js:109-132 | the two services agree on each result's email and success |
| DbConfig.SanitizeText | src/lib/newsletterBackend.ts:59-62 | the cleaned URI has no zero-width character, CR or LF, and no whitespace at either end |
| DbConfig.SanitizeUri | src/lib/newsletterBackend.ts:58-62 | an unset URI stays unset, a set one is cleaned |
| DbConfig.SanitizeIdempotent | src/lib/newsletterBackend.ts:59-62 | cleaning twice is cleaning once |
| DbConfig.SanitizeRemovesPasteDebris | src/lib/newsletterBackend.ts:57-62 | a URI pasted with a leading BOM and a trailing CRLF cleans back to itself |
| DbConfig.StartConnect | src/lib/newsletterBackend.ts:90-99 | connection starts exactly for a "mongodb://" or "mongodb+srv://" URI, otherwise the exact error message is thrown |
| DbConfig.MissingOrForeignSchemeRefused | src/lib/newsletterBackend.ts:90-99 | an unset URI, or one with another scheme after cleaning, is refused |
| NewsletterStore.DenialReply | src/app/api/newsletters/route.ts:29-33 | a refusal passes on the guard's status and message, defaulting to 401 and "Unauthorized" |
| NewsletterStore.DeniedCreatesNothing | src/app/api/newsletters/route.ts:28-33 | a refused request creates nothing and carries the guard's status and message |
| NewsletterStore.GuardBeforeBody | src/app/api/newsletters/route.ts:28-37 | the refusal does not depend on the body, not even on whether it is JSON |
| NewsletterStore.MalformedBodyCreatesNothing | src/app/api/newsletters/route.ts:36-56 | an authorised request whose body is not JSON gets 500 "Server Error" and creates nothing |
| NewsletterStore.MissingTitleCreatesNothing | src/app/api/newsletters/route.ts:37-38 | an authorised request without a title is 400 "Title is required" and creates nothing |
| NewsletterStore.CreateStoresSuppliedFields | src/app/api/newsletters/route.ts:37-40 | a titled request appends one newsletter holding exactly the supplied fields (missing ones "") and now, replying 201 with it |
| NewsletterStore.NoTokenNoNewsletter | src/app/api/newsletters/route.ts:28-33 | with the TypeScript guard a request without a bearer token is 401 "No token provided" |
| NewsletterStore.NoTokenNoNewsletterJs | src/app/api/newsletters/route.ts:28-33 | with the JavaScript guard too, loaded library or not, a request without a bearer token is 401 "No token provided" and creates nothing |
| NewsletterStore.PostKeepsIdsFresh | src/app/api/newsletters/route.ts:40 | every POST keeps newsletter ids distinct |
| NewsletterStore.NewsletterCollection.Post | src/app/api/newsletters/route.ts:26-58 | reply and collection are `PostSpec`'s; only a create dispatches, to exactly the active subscribers, each once, and only when there is one |
| NewsletterStore.NewsletterCollection.ListByDate | src/app/api/newsletters/route.ts:11 | all newsletters, newest first |
| Feed.ListFromResponse | src/app/page.tsx:201-206 | a non-array response or a failed fetch gives the empty list; the list page applies the same rule at src/app/newsletter/page.tsx:78-82 |
| Feed.ContainsAnyIff | src/app/page.tsx:123-126 | an alternation of literals matches exactly when one of its words occurs |
| Feed.TextCategory | src/app/page.tsx:122-127 | the chain of tests on the lower-cased text yields one of the five non-"All" buttons |
| Feed.CategoryOf | src/app/page.tsx:121-128 | the category is one of the five non-"All" buttons |
| Feed.CategoryPriority | src/app/page.tsx:121-128 | a group is chosen exactly when its keyword occurs and no earlier group's does; "General" exactly when none occurs |
| Feed.CategoryIgnoresCase | src/app/page.tsx:122 | the case of the title does not change the category |
| Feed.SearchTextIgnoresTitleCase | src/app/page.tsx:122 | lower-casing the title first leaves the searched text unchanged |
| Feed.KeywordsMatchInsideWords | src/app/page.tsx:122-123 | any title with "ai" anywhere in it, even inside a word such as "Email", puts the item in AI |
| Feed.Categorize | src/app/page.tsx:213-215 | each item is kept, in order, and tagged with its category, one of the five |
| Feed.FilterMembership | src/app/page.tsx:217-219 | "All" keeps every tagged item; any other filter keeps exactly the items tagged with it |
| Feed.FeedFilterMembership | src/app/page.tsx:213-219 | with a category filter, an item is shown exactly when it is in the feed and `getCategory` gives that category |
| Feed.FilterConcat | src/app/page.tsx:217-219 | filtering commutes with concatenation, so order is kept |
| Feed.CategoriesPartition | src/app/page.tsx:213-219 | every tag is one of the five categories, so the five filters' sizes add up to the whole feed |
| Feed.TotalPages | src/app/page.tsx:222 | the fewest pages of nine holding all items |
| Feed.Visible | src/app/page.tsx:223-225 | a page shows at most nine items |
| Feed.PageIsWindow | src/app/page.tsx:223-225 | page p shows indices (p-1)*9 to p*9, cut at the end |
| Feed.ItemOnItsPage | src/app/page.tsx:222-225 | item i is on page i/9+1 at position i%9, on no other page, and that page exists |
| Feed.PagesEndAtTotal | src/app/page.tsx:222-225 | the last page is non-empty and pages after it are empty |
| Feed.RangeMatchesVisible | src/app/page.tsx:592 | the "Showing first-last of n" range counts exactly the visible items, within 1..n |
| Feed.PageWindow | src/app/page.tsx:550 | the window has min(5, total) buttons |
| Feed.PageWindowShape | src/app/page.tsx:550-560 | for a valid current page the buttons are consecutive existing pages and include it |
| Feed.StepsStayInRange | src/app/page.tsx:542-579 | Previous and Next stay within 1..total and move by at most one |
| Feed.IsNew | src/app/page.tsx:229-233 | only a dated item can be new |
| Feed.NewnessWearsOff | src/app/page.tsx:229-233 | a dated item is new until one week after its date, including any future-dated item, and the badge never comes back |
| Feed.FeedState.constructor | src/app/page.tsx:187-191 | the feed starts empty, on "All", at page 1 |
| Feed.FeedState.Load | src/app/page.tsx:194-211 | the list is the `Array.isArray` result; with page 1 the page stays valid |
| Feed.FeedState.SelectCategory | src/app/page.tsx:446 | a category button sets the filter and returns to page 1 |
| Feed.FeedState.Previous | src/app/page.tsx:542 | Previous keeps the current page among the filtered feed's pages |
| Feed.FeedState.Next | src/app/page.tsx:579 | Next keeps the current page among the filtered feed's pages |
| Feed.FeedState.GoTo | src/app/page.tsx:565 | a page-number button keeps the current page among the filtered feed's pages |
| Excerpts.StripTags | src/app/page.tsx:525 | stripping never lengthens the text and keeps only characters of it |
| Excerpts.StripTagsLeavesNoTag | src/app/newsletter/page.tsx:125 | after the global replace no `<[^>]+>` match remains |
| Excerpts.StripTagsPlainText | src/app/newsletter/page.tsx:125 | text without "<" is unchanged |
| Excerpts.ExcerptShape | src/app/newsletter/page.tsx:125 | description when present; else at most `limit` leading stripped characters plus "...", tag-free; else the fallback |
| Excerpts.FeedExcerpt | src/app/page.tsx:524-527 | the feed card shows the description, else 120 stripped characters plus "...", else "No description available" |
| Excerpts.ListExcerpt | src/app/newsletter/page.tsx:125 | the list card shows the description, else 160 stripped characters plus "...", else "" |
| Excerpts.StripLeadingTag | src/app/newsletter/page.tsx:125 | one complete tag in front is removed as one match and the pass goes on after it |
| Excerpts.StripTagsOnlyTags | src/app/newsletter/page.tsx:125 | markup made only of complete tags strips to nothing |
| Excerpts.MarkupOnlyContent | src/app/newsletter/page.tsx:125 | without a description, content made only of tags (such as "<p></p>") gives the excerpt "..." on both cards |
| Excerpts.FeedImageSrc | src/app/page.tsx:486 | the image URL when set, else the placeholder; never empty |
| Excerpts.ListImageSrc | src/app/newsletter/page.tsx:117 | an "http" URL or the placeholder, nothing else |
| Excerpts.ListImageStricter | src/app/newsletter/page.tsx:117 | whenever the list card shows the URL, the feed card shows it too |
| NewsletterEditor.ApiBase | src/app/admin/create/page.tsx:7 | the API base is the variable when set, else "" |
| NewsletterEditor.ContentOf | src/app/admin/create/page.tsx:126-129 | the content starts with "<style>"; without an editor it is "<style></style>" |
| NewsletterEditor.ComposeSplitRoundTrip | src/app/admin/create/page.tsx:129 | CSS without "</style>" and any HTML can be read back from the content |
| NewsletterEditor.ComposeInjective | src/app/admin/create/page.tsx:129 | different editor contents give different stored content |
| NewsletterEditor.ExcerptKeepsStyleText | src/app/admin/create/page.tsx:129 | a card excerpt of editor content starts with the CSS text, since only the tags are stripped |
| NewsletterEditor.HandleChange | src/app/admin/create/page.tsx:103-105 | the fields are the old ones plus the named one |
| NewsletterEditor.ChangeTouchesOneField | src/app/admin/create/page.tsx:104 | the named field takes the value and every other field keeps its own |
| NewsletterEditor.InputsKeepFormShape | src/app/admin/create/page.tsx:160-162 | the three named inputs never add a field |
| NewsletterEditor.SubmitRequest | src/app/admin/create/page.tsx:124-138 | the body is the form plus `content`, which is `ContentOf` the editor |
| NewsletterEditor.PreviewDocument | src/app/admin/create/page.tsx:142-151 | a document is written exactly when a window opens |
| NewsletterEditor.PreviewMatchesSubmit | src/app/admin/create/page.tsx:145-147 | preview writes exactly the content submit sends |
| NewsletterEditor.SubmitCarriesToken | src/app/admin/create/page.tsx:133-136 | the stored token reaches the guard unchanged; without one the guard answers "No token provided" |
| NewsletterEditor.AssetSrc | src/app/admin/create/page.tsx:86-91 | an asset is added exactly for a truthy URL |
| NewsletterEditor.UploadUrlsAgree | src/app/admin/create/page.tsx:86-120 | both handlers keep "http" URLs and prefix the rest with the API base; a missing cover URL gives the API base |
| NewsletterEditor.CoverUrlIdempotent | src/app/admin/create/page.tsx:119 | with an absolute or empty API base, normalising twice changes nothing |

## Left out

**Infrastructure and I/O**

- Connection caching in `connectDB`, `mongoose.connect` itself, and the JavaScript `connectDB`, which checks nothing: network and process state. `StartConnect` models only the TypeScript URI check.
- The 500 replies of the catch blocks when the database itself fails ("Server Error", and "Server error" with `error`): the modelled collections are in memory and do not fail. The failed save within subscribe (validation or a unique index) and a body that is not JSON are modelled. The `error` text of the subscribe handlers' 500 reply is not modelled.
- JWT verification internals and the secret: the verifier is an oracle. The login route is not part of this model.
- nodemailer and Cloudinary: the transport is an oracle, and uploads are seen only through the URL they return.
- Concurrency. The fire-and-forget dispatch after a newsletter POST is modelled as a call whose result is discarded; the reply does not depend on it.
- React rendering, the `fetch` calls themselves, GrapesJS setup, the particle canvas and animated numbers, the client-side redirect without a stored token, and the `isTrending` badge, which is not part of this model.

**Parts of the data not modelled**

- Subscriber `preferences`, `engagementScore`, `lastEngagement`, `ipAddress` and `userAgent`: nothing in the modelled handlers reads or writes them.
- The unsubscribe, delete and newsletter update handlers are not part of this model.

**Semantic limits**

- Which twin is live: under a bundler that resolves `.js` before `.ts`, the routes would run the JavaScript guard, under which an expired token is a 401 rather than a 500 (`TwinsDisagreeOnErrors`). They would also run `EmailServiceJs`, and a `connectDB` that checks no URI, so `StartConnect` would not apply. The model does not decide which build is used.

- SubscriberStore.HandleSubscribe, SubscriberStore.Store.Subscribe and SubscriberStore.Store.PostSubscribe: the parsed body is modelled as optional strings. A JSON number as `email` (cast to a string by Mongoose), an object or array as `email` (a CastError, so a 500), and `name: null` (which skips the `= ''` default and stores null) are not modelled.
- NewsletterStore.PostSpec and NewsletterStore.NewsletterCollection.Post: the newsletter fields are likewise optional strings. Non-string values, which Mongoose casts or rejects, are not modelled.

- Strings are sequences of characters. Case folding is ASCII only, and UTF-16 code units are not distinguished.
- A thrown `null` in the catch block of the JavaScript `sendNewsletter` (src/lib/newsletterBackend.js:128) is not modelled: `error.message` would itself throw. The JavaScript `requireAuth` catch guards with `err && err.message` and is modelled.
- A subscriber without a token would render "/?token=undefined". The collection invariant excludes such records.

**Weaker contracts**

- SubscriberStore.Store.ActiveSubscribers: returns whole records, while the source projects `email`, `name` and `unsubscribeToken`. The email reads only those fields.
- Feed.IsNew: `new Date(date)` parsing is abstracted to `DateField` (absent, unparseable or a millisecond time).
- Sorting.SortDesc: does not fix the order of equal dates, which MongoDB does not guarantee either.
- Dispatch.EmailService.SendNewsletter: the sequential `await` of each send is not modelled; the transport is a pure oracle of the attempt.
