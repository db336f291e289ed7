# Landing-page builder, modelled in Dafny

A Next.js application lets an administrator compose landing pages in a block editor. It stores them in a `landing_pages` table and serves each page on its own subdomain. This project models and proves the application's rule-bearing parts:

- **Slugs.** `formatSlug` canonicalises slugs; module `Slug`.
- **Forms.** The two admin forms around it: the publish dialog (`PublishDialog`) and the settings form (`SettingsForm`).
- **Routing.** Host-based routing (`Middleware`) and public URL building (`Subdomain`).
- **Editor configuration.** The editor configuration's shared wrappers and field injection (`PuckConfig`).
- **Page API.** The page-collection API over a slug-keyed store (`LandingPagesRoute`), with its row mapping (`Supabase`).
- **Landing-page sections.** The interactive sections:
  - `ProblemSection`: the checklist and its cost total;
  - `FaqSection`: the accordion;
  - `OfferSection`: quantities, the order bump and the countdown;
  - `MechanismSection`: the units counter;
  - `StickyCta`: the sticky bar;
  - `GuaranteeSection`: the placeholder substitution and signal styling.

`JsText` writes out the ECMAScript string operations these rely on: `trim`, `indexOf`/`includes`, `replace` with a string pattern, `String(n)` and `padStart`. `Wrappers` holds `Option`.

Code that updates state in place is modelled as a class whose methods modify its fields:

- the store;
- the form states;
- the checklist, accordion, offer, counter and bar;
- the editor configuration's injection loop.

Pure code is modelled as functions with lemmas. Outside inputs are parameters:

- the authenticated user;
- database availability and errors, generated ids and the clock;
- the Host header and `NEXT_PUBLIC_DOMAIN` (`""` when unset);
- the browser port, scroll positions, and the milliseconds left until midnight.

Timers, clicks and scroll events are method calls. Navigation, toasts and requests are returned as values.

## Model

| member | source | states |
|---|---|---|
| `Slug.FormatSlug` | components/admin/PublishDialog.tsx:119-126 | every output is canonical: only `a`-`z`, `0`-`9`, `-`, no `--`, no hyphen at either end |
| `Slug.CollapseKeepsSlugChars` | components/admin/PublishDialog.tsx:124-125 | collapsing hyphen runs keeps the text within `[a-z0-9-]` |
| `Slug.CollapseNoDoubleHyphen` | components/admin/PublishDialog.tsx:125 | after collapsing, no two hyphens are adjacent |
| `Slug.TrimHyphensCanonical` | components/admin/PublishDialog.tsx:126 | dropping one hyphen at each end of a collapsed slug leaves no hyphen at either end |
| `Slug.StripMarksUnchanged` | components/admin/PublishDialog.tsx:123 | a text holding no combining mark (U+0300 to U+036F) passes the mark-stripping step unchanged |
| `Slug.CollapseUnchanged` | components/admin/PublishDialog.tsx:125 | text without `--` passes the collapsing step unchanged |
| `Slug.CanonicalIsFixedPoint` | components/admin/PublishDialog.tsx:119-126 | formatting a canonical slug returns it unchanged |
| `Slug.FormatSlugIdempotent` | components/admin/PublishDialog.tsx:119-126 | formatting twice equals formatting once |
| `Slug.FixedPointIffCanonical` | components/admin/PublishDialog.tsx:119-126 | a text is its own slug exactly when it is canonical |
| `Slug.CanonicalIsTrimmed` | components/admin/PublishDialog.tsx:147 | a canonical slug is its own `trim`, so it is blank only when empty |
| `Slug.CanonicalHasNoDot` | lib/subdomain.ts:13 | a canonical slug holds no `.`, so it forms a single host label |
| `JsText.Trim` | components/admin/PublishDialog.tsx:146-147 | `trim` returns the part of the text between a white-space prefix and a white-space suffix, with no white space left at either end, and gives `""` exactly when the whole text is white space |
| `JsText.TrimStartEmptyIff` | components/admin/PublishDialog.tsx:146-147 | dropping leading white space empties a text exactly when all of it is white space |
| `JsText.BlankIffAllWhitespace` | components/admin/PublishDialog.tsx:146-147 | `!s.trim()` holds exactly when every character is white space |
| `JsText.TrimIdempotent` | components/admin/SettingsForm.tsx:80-82 | trimming a trimmed text changes nothing |
| `JsText.IndexOf` | components/landing/GuaranteeSection.tsx:85 | `indexOf` finds the first occurrence: the pattern occurs there and at no earlier index, and `-1` means it occurs nowhere |
| `JsText.ContainsIff` | middleware.ts:14 | `includes` holds exactly when the pattern occurs at some index |
| `JsText.NotContainsJoin` | middleware.ts:14 | a pattern free of the separator occurs in `a + sep + b` only if it occurs in `a` or in `b` |
| `JsText.ReplaceFirst` | components/landing/GuaranteeSection.tsx:85 | `replace` with a string pattern returns the text unchanged when the pattern is absent; otherwise it replaces the first occurrence only and keeps the text around it verbatim |
| `JsText.IndexOfAfterFree` | components/landing/GuaranteeSection.tsx:85 | if the pattern's first character does not recur in it, the first occurrence after a pattern-free prefix is right after that prefix |
| `JsText.IntToString` | components/landing/OfferSection.tsx:98-100 | `String(n)` of a non-negative integer is a digit string without a superfluous leading zero that reads back as `n` |
| `JsText.PadStart` | components/landing/OfferSection.tsx:98-100 | `padStart` keeps the text as its suffix and fills the front with the pad character up to the target length, never shortening |
| `JsText.ParseNatToDecimal` | components/landing/OfferSection.tsx:98-100 | reading `String(n)` back as a decimal gives `n` |
| `JsText.ParseLeadingZeros` | components/landing/OfferSection.tsx:98-100 | zero padding on the left does not change a numeral's value |
| `Middleware.Route` | middleware.ts:5-31 | without a Host header the request passes through; a rewrite happens only for a host with a `.`, not the domain, not containing `localhost`, subdomain not `www`, and a path outside `/admin` and `/api`; the new path starts with `/` + subdomain and ends with the original path |
| `Middleware.Subdomain` | middleware.ts:10 | the subdomain is a `.`-free prefix of the host, ending at its first `.` or at its end |
| `Middleware.SubdomainWholeIffNoDot` | middleware.ts:10-17 | the subdomain is the whole host exactly when the host holds no `.` |
| `Middleware.SubdomainOfJoin` | middleware.ts:10 | the subdomain of `label.rest` is `label` |
| `Middleware.MissingHostPassesThrough` | middleware.ts:5-19 | a request without a Host header passes through |
| `Middleware.PassThroughHosts` | middleware.ts:13-20 | a host containing `localhost`, equal to the domain, with subdomain `www`, or without `.` passes through |
| `Middleware.PassThroughPaths` | middleware.ts:23-25 | paths starting with `/admin` or `/api` pass through whatever the host |
| `Middleware.AdministratorPassesThrough` | middleware.ts:23 | the prefix test also passes `/administrator` through |
| `Middleware.RewriteIff` | middleware.ts:13-31 | a rewrite happens exactly when no pass-through condition holds; its path is `/` + subdomain + original path, with that prefix and suffix |
| `Subdomain.LandingPageUrl` | lib/subdomain.ts:9-23 | the URL is `https://` with a domain and `http://` without, followed by a host made of the slug, `.`, and the domain or the local host suffix |
| `Subdomain.HostAfterScheme` | lib/subdomain.ts:13 | the host of `scheme://rest` is `rest` when the scheme has no `:` |
| `Subdomain.ProductionUrl` | lib/subdomain.ts:12-14 | with a domain the URL is `https://<slug>.<domain>`, and its host is `<slug>.<domain>` |
| `Subdomain.DomainTakesPrecedence` | lib/subdomain.ts:12-20 | with a domain, the browser context does not change the URL |
| `Subdomain.DevelopmentUrls` | lib/subdomain.ts:17-22 | without a domain: `http://<slug>.localhost` plus `:<port>` only for a non-empty port, and `:3000` on the server |
| `Subdomain.SlugIsFirstLabel` | lib/subdomain.ts:12-22 | in every branch the slug is the first label of the URL's host |
| `Subdomain.ProductionUrlRoutesToSlug` | lib/subdomain.ts:9-14 | a request to a production page URL on a non-admin, non-API path is rewritten to `/<slug><path>` |
| `Subdomain.DevelopmentUrlNotRewritten` | lib/subdomain.ts:17-22 | a development page URL names `localhost`, so routing passes it through unrewritten |
| `Supabase.TransformLandingPage` | lib/supabase.ts:15-25 | renaming the transformed record back gives the row, so no field is lost or altered |
| `Supabase.TransformRoundTrip` | lib/supabase.ts:15-25 | each of the seven fields is copied under its camelCase name, `checkout_url` null included |
| `Supabase.TransformBijective` | lib/supabase.ts:15-25 | every API record comes from exactly one row: the transform loses and invents nothing |
| `LandingPagesRoute.PostStatus` | app/api/landing-pages/route.ts:40-89 | each status has exactly one cause: 401 no user, 400 falsy slug/title/data, 409 slug taken, 201 new slug, 500 bad JSON or a failing database |
| `LandingPagesRoute.InsertPosition` | app/api/landing-pages/route.ts:25 | the insertion point has only later-updated pages before it and none after it |
| `LandingPagesRoute.InsertSorted` | app/api/landing-pages/route.ts:25 | inserting at that point keeps the list ordered by `updatedAt` descending |
| `LandingPagesRoute.InsertMembers` | app/api/landing-pages/route.ts:22-25 | the inserted list holds exactly the old pages and the new one |
| `LandingPagesRoute.InsertDistinct` | app/api/landing-pages/route.ts:22-25 | inserting a page with a new slug keeps slugs distinct |
| `LandingPagesRoute.ListsRowsInsert` | app/api/landing-pages/route.ts:22-25 | inserting one more row's page keeps the list sorted, duplicate-free and exactly the transformed rows seen so far |
| `LandingPagesRoute.PageStore.Get` | app/api/landing-pages/route.ts:14-37 | 401 without a user, 500 when the database fails, else every stored row once, transformed, ordered by `updatedAt` descending |
| `LandingPagesRoute.PageStore.Post` | app/api/landing-pages/route.ts:40-89 | the status follows `PostStatus` with its exact message; 201 adds exactly the one new row and returns it transformed; every other outcome leaves the store unchanged |
| `PuckConfig.Render` | lib/puck-config.ts:38-55 | rendering adds at most one wrapper per injected layer, and under them sits the original component with both shared keys removed from its props |
| `PuckConfig.RootRender` | lib/puck-config.ts:151-164 | the root is a `div` holding the page children, centred, full width, with max width the `maxWidth` prop when truthy and `1440px` otherwise |
| `PuckConfig.RootMaxWidth` | lib/puck-config.ts:151-157 | with the default props the root column is `1440px` wide |
| `PuckConfig.ContainerWrapper` | lib/puck-config.ts:38-55 | an empty `containerMaxWidth` renders the component without the key; a value adds one centred wrapper of that max width |
| `PuckConfig.BackgroundWrapper` | lib/puck-config.ts:117-133 | an empty `backgroundColor` renders the component without the key; a value adds one full-bleed band of that colour |
| `PuckConfig.InjectedRenderShape` | lib/puck-config.ts:1485-1486 | one wrapper per truthy shared prop, background outermost, and the component underneath without either key |
| `PuckConfig.Inject` | lib/puck-config.ts:1473-1487 | fields and defaults are spread over the shared ones: both shared keys present, the component's own entries kept and winning, `""` defaults added only where missing, nothing else added; the render gains the two wrapper layers around the same base component |
| `PuckConfig.DefaultsAddNoWrapper` | lib/puck-config.ts:1480-1486 | with the injected defaults a component renders with no wrapper and unchanged props |
| `PuckConfig.Config.InjectSharedFields` | lib/puck-config.ts:1473-1487 | every component in the table, and only those, is replaced by its injected form |
| `PublishDialog.FollowTitle` | components/admin/PublishDialog.tsx:128-135 | the slug follows the new title when it was empty or matched the old one, and is otherwise kept; a canonical slug stays canonical |
| `PublishDialog.FollowingIsKept` | components/admin/PublishDialog.tsx:128-135 | a slug that matches its title keeps matching through any title edits |
| `PublishDialog.LastTitle` | components/admin/PublishDialog.tsx:133 | after title edits the title is the last one typed |
| `PublishDialog.SlugFollowsTitle` | components/admin/PublishDialog.tsx:128-135 | from an empty or matching slug, after title edits the slug is the canonical slug of the last title |
| `PublishDialog.CanonicalSlugError` | components/admin/PublishDialog.tsx:147 | for the form's canonical slug, the slug error is raised exactly for the empty slug |
| `PublishDialog.ClosesDialog` | components/admin/PublishDialog.tsx:172-184 | an open request never closes; a close request reaches `onClose` exactly when the dialog is not saving a new page |
| `PublishDialog.PublishForm.constructor` | components/admin/PublishDialog.tsx:101-106 | the form starts empty, with no errors |
| `PublishDialog.PublishForm.OnOpen` | components/admin/PublishDialog.tsx:110-115 | opening in `new` mode clears the form and errors; otherwise nothing changes |
| `PublishDialog.PublishForm.TitleChange` | components/admin/PublishDialog.tsx:128-135 | the slug becomes `formatSlug(new title)` exactly when it was empty or matched the old title; both errors clear |
| `PublishDialog.PublishForm.SlugChange` | components/admin/PublishDialog.tsx:137-140 | the slug becomes `formatSlug(input)`; only the slug error clears; the title is unchanged |
| `PublishDialog.PublishForm.CheckoutUrlChange` | components/admin/PublishDialog.tsx:260 | the checkout URL is stored verbatim and nothing else changes |
| `PublishDialog.PublishForm.Validate` | components/admin/PublishDialog.tsx:144-150 | the result is true exactly when trimmed title and slug are non-empty; an error is recorded for exactly each blank field |
| `PublishDialog.PublishForm.Submit` | components/admin/PublishDialog.tsx:152-155 | the form goes to `onSubmit` exactly when validation passes; afterwards each error is the one its field's validation gives |
| `SettingsForm.SaveRequestFor` | components/admin/SettingsForm.tsx:76-83 | the request goes to the current slug's path with the title equal to `trim` of the typed title (empty exactly when blank), the slug verbatim, and the checkout URL trimmed and omitted exactly when blank |
| `SettingsForm.SaveAttempt` | components/admin/SettingsForm.tsx:70-83 | nothing is sent exactly when the title or the slug is blank; otherwise the request above is sent, with a non-empty title |
| `SettingsForm.ResponseError` | components/admin/SettingsForm.tsx:88-89 | the error message is never empty: the server's `error` when non-empty, else the fallback text |
| `SettingsForm.SettingsForm.constructor` | components/admin/SettingsForm.tsx:56-61 | the fields start at their initial values, idle, with no message, not deleting |
| `SettingsForm.SettingsForm.HasChanges` | components/admin/SettingsForm.tsx:63-66 | true exactly when some field differs from its initial value |
| `SettingsForm.SettingsForm.SubmitDisabled` | components/admin/SettingsForm.tsx:208 | the button is disabled exactly while saving or while all three fields equal their initial values |
| `SettingsForm.SettingsForm.EditTitle` | components/admin/SettingsForm.tsx:136-139 | a title edit resets the status to idle and changes nothing else |
| `SettingsForm.SettingsForm.EditSlug` | components/admin/SettingsForm.tsx:156-160 | a slug edit stores the canonical slug and resets the status to idle |
| `SettingsForm.SettingsForm.EditCheckoutUrl` | components/admin/SettingsForm.tsx:185-188 | a checkout URL edit resets the status to idle and changes nothing else |
| `SettingsForm.SettingsForm.BeginSave` | components/admin/SettingsForm.tsx:68-84 | a blank title or slug sends nothing and changes nothing; otherwise the status becomes saving, the message clears and the request is sent; the fields are untouched |
| `SettingsForm.SettingsForm.FinishSave` | components/admin/SettingsForm.tsx:86-103 | success navigates to `/admin/settings/<slug>` iff the slug changed, else schedules the return to idle after 2500 ms; failure sets error with the body's, default or thrown message |
| `SettingsForm.SettingsForm.IdleResetElapsed` | components/admin/SettingsForm.tsx:98 | the scheduled reset returns the status to idle |
| `SettingsForm.SettingsForm.BeginDelete` | components/admin/SettingsForm.tsx:106-111 | deleting becomes true and the delete request names the current slug |
| `SettingsForm.SettingsForm.FinishDelete` | components/admin/SettingsForm.tsx:112-116 | success navigates to `/admin`; failure sets deleting back to false |
| `ProblemSection.ToggleSet` | components/landing/ProblemSection.tsx:62-68 | toggling flips membership of exactly the clicked index |
| `ProblemSection.ToggleSetInvolution` | components/landing/ProblemSection.tsx:62-68 | toggling the same index twice restores the set |
| `ProblemSection.TotalCost` | components/landing/ProblemSection.tsx:59 | the total is 0 when nothing is checked, and non-negative when no cost is negative |
| `ProblemSection.CostBelowNoneChecked` | components/landing/ProblemSection.tsx:59 | with nothing checked, every partial cost sum is 0 |
| `ProblemSection.CostBelowToggle` | components/landing/ProblemSection.tsx:59 | toggling an index moves each partial sum that covers it by that problem's cost |
| `ProblemSection.TotalCostToggle` | components/landing/ProblemSection.tsx:59-68 | checking a problem adds its cost to the total; unchecking subtracts it |
| `ProblemSection.Indices` | components/landing/ProblemSection.tsx:95-96 | the index set of `n` problems is exactly `0..n-1` |
| `ProblemSection.IndicesSize` | components/landing/ProblemSection.tsx:60 | there are `n` indices |
| `ProblemSection.AllCheckedIff` | components/landing/ProblemSection.tsx:60 | `checked.size === problems.length` holds exactly when every problem is checked |
| `ProblemSection.AllCheckedDescription` | components/landing/ProblemSection.tsx:183 | without `$totalCost` the text is unchanged; otherwise its first occurrence is replaced by `$` and the total, and the rest is kept |
| `ProblemSection.Checklist.constructor` | components/landing/ProblemSection.tsx:56-57 | nothing is checked and nothing was toggled |
| `ProblemSection.Checklist.Toggle` | components/landing/ProblemSection.tsx:62-70 | the set is toggled at `i`, `lastToggled` becomes `i`, the total moves by its cost; a reaction shows only for `i`, when newly checked; badges change only for `i` |
| `ProblemSection.Checklist.AllChecked` | components/landing/ProblemSection.tsx:60 | true exactly when every problem is checked |
| `ProblemSection.Checklist.Summary` | components/landing/ProblemSection.tsx:176-183 | the summary appears exactly when all are checked, with the total substituted |
| `FaqSection.NextActive` | components/landing/FAQSection.tsx:28 | clicking the open question closes it; clicking any other opens exactly that one |
| `FaqSection.ClickTwiceCloses` | components/landing/FAQSection.tsx:28 | from all-closed, two clicks on one question close it again |
| `FaqSection.OpenIsLastClicked` | components/landing/FAQSection.tsx:28 | after any clicks, either nothing or exactly the last question clicked is open |
| `FaqSection.Accordion.constructor` | components/landing/FAQSection.tsx:15 | initially no answer is open |
| `FaqSection.Accordion.Click` | components/landing/FAQSection.tsx:28-41 | clicking the open question closes it; clicking another opens exactly it; at most one answer shows |
| `OfferSection.JsRem` | components/landing/OfferSection.tsx:99-100 | JavaScript `%` keeps the dividend's sign: in `[0, b)` for a non-negative dividend, `(-b, 0]` otherwise, and it differs from the dividend by a multiple of `b` |
| `OfferSection.CountdownHours` | components/landing/OfferSection.tsx:98 | the hours are the whole hours in `diff`: `h*3600000 <= diff < (h+1)*3600000`, non-negative for `diff >= 0` |
| `OfferSection.CountdownMinutes` | components/landing/OfferSection.tsx:99 | for `diff >= 0` the minutes are in 0..59 |
| `OfferSection.CountdownSeconds` | components/landing/OfferSection.tsx:100 | for `diff >= 0` the seconds are in 0..59 |
| `OfferSection.CountdownDecomposition` | components/landing/OfferSection.tsx:97-100 | for `diff >= 0`: minutes and seconds in 0..59, and `h*3600000 + m*60000 + s*1000 <= diff < that + 1000` |
| `OfferSection.Pad2` | components/landing/OfferSection.tsx:98-100 | a field is at least two characters, exactly two below 100, and for `n >= 0` all digits reading back as `n` |
| `OfferSection.NatToDecimalLength` | components/landing/OfferSection.tsx:98 | numbers below 100 have at most two digits |
| `OfferSection.BumpDecrement` | components/landing/OfferSection.tsx:574 | the minus button subtracts one above 1 and otherwise gives 1, so it never goes below 1 |
| `OfferSection.BumpIncrement` | components/landing/OfferSection.tsx:579 | the plus button adds one below 5 and otherwise gives 5, so it never goes above 5 |
| `OfferSection.BumpToast` | components/landing/OfferSection.tsx:87-91 | the toast lasts 2000 ms and says added exactly when the bump is now on |
| `OfferSection.Offer.constructor` | components/landing/OfferSection.tsx:79-85 | starts with 2 subscription packs, no one-time pack, no bump, bump quantity 1, countdown `06:42:18` |
| `OfferSection.Offer.ChooseSubscription` | components/landing/OfferSection.tsx:386-391 | the chosen quantity becomes the option's and exactly that option is selected |
| `OfferSection.Offer.ChooseOneTime` | components/landing/OfferSection.tsx:467-472 | the chosen quantity becomes the option's and exactly that option is selected |
| `OfferSection.Offer.ToggleBump` | components/landing/OfferSection.tsx:87-91 | the bump flips and the toast names the new state |
| `OfferSection.Offer.DecrementBump` | components/landing/OfferSection.tsx:574 | the bump quantity stays in `[1, 5]` |
| `OfferSection.Offer.IncrementBump` | components/landing/OfferSection.tsx:579 | the bump quantity stays in `[1, 5]` |
| `OfferSection.Offer.UpdateCountdown` | components/landing/OfferSection.tsx:93-101 | the three fields become `Pad2` of the hours, minutes and seconds of `diff` |
| `MechanismSection.Tick` | components/landing/MechanismSection.tsx:80 | a tick drops the value by one exactly when it is above 100, else keeps it, and never takes a value at or above 100 below 100 |
| `MechanismSection.TicksClosedForm` | components/landing/MechanismSection.tsx:80 | after `k` ticks a value above 100 has dropped by `k`, stopping at 100; one at or below 100 is unchanged |
| `MechanismSection.TicksBounds` | components/landing/MechanismSection.tsx:80 | ticks never increase the value, and from 100 or more never go below 100 |
| `MechanismSection.UnitsAfter` | components/landing/MechanismSection.tsx:78-82 | `elapsedMs` after mounting, a value above 100 has dropped by one per whole 120000 ms interval, stopping at 100; one at or below 100 is unchanged |
| `MechanismSection.UnitsCounter.constructor` | components/landing/MechanismSection.tsx:76 | the counter starts at `initialUnitsRemaining` |
| `MechanismSection.UnitsCounter.OnTick` | components/landing/MechanismSection.tsx:79-81 | a tick subtracts one above 100 and otherwise changes nothing |
| `StickyCta.ShouldShow` | components/landing/StickyCTA.tsx:19-26 | the bar should show exactly when scrolled past 500 and the offer section is absent or out of view |
| `StickyCta.Step` | components/landing/StickyCTA.tsx:17-30 | dismissal latches; a scroll while dismissed changes nothing, otherwise sets visibility from `ShouldShow`; a dismissed bar is not rendered |
| `StickyCta.DismissedStaysHidden` | components/landing/StickyCTA.tsx:18-34 | once dismissed, no events change the bar, and it is never rendered |
| `StickyCta.LastScrollDecides` | components/landing/StickyCTA.tsx:17-27 | before dismissal the bar shows exactly what the last scroll decided |
| `StickyCta.Bar.constructor` | components/landing/StickyCTA.tsx:13-14 | initially not visible and not dismissed |
| `StickyCta.Bar.OnScroll` | components/landing/StickyCTA.tsx:17-27 | visible iff scrollY > 500 and the offer section is not in view (or absent); no change after dismissal |
| `StickyCta.Bar.OnDismiss` | components/landing/StickyCTA.tsx:53 | the close button latches `dismissed`, hiding the bar |
| `GuaranteeSection.ConfidenceText` | components/landing/GuaranteeSection.tsx:85 | without `{percentage}` the text is unchanged; otherwise the first placeholder becomes the emphasised percentage and the text around it is kept |
| `GuaranteeSection.SecondPlaceholderKept` | components/landing/GuaranteeSection.tsx:85 | a second `{percentage}` stays literal |
| `GuaranteeSection.Emphasised` | components/landing/GuaranteeSection.tsx:64-73 | a signal is emphasised exactly when it is the last of a non-empty list |
| `GuaranteeSection.ExactlyLastEmphasised` | components/landing/GuaranteeSection.tsx:64-73 | a non-empty signal list has exactly one emphasised signal, the last |

## Left out

- Unicode case mapping and `normalize("NFD")` in `formatSlug`: the model lowercases ASCII letters only and treats its input as already in NFD. So an accented capital such as `É` becomes `-`, where the source would give `e`.
- `formatSlug` appears twice: components/admin/SettingsForm.tsx:39-46 is character-for-character the same expression as components/admin/PublishDialog.tsx:119-126. The model defines it once, as `Slug.FormatSlug`, and both forms use that one definition, so the two agree on every input by construction.
- `$`-patterns in `String.prototype.replace` replacement strings: both substitutions insert the replacement literally. For `$totalCost` the replacement is a `$` followed by a number, so this is exact. For `{percentage}` it assumes the percentage text holds no `$&`, `` $` ``, `$'` or `$$`.
- `Middleware.Route`: the Next.js `matcher` regex (middleware.ts:35-42) is not modelled; every request is taken to reach the middleware.
- `NEXT_PUBLIC_DOMAIN` unset and set to `""` behave the same in both the middleware and URL building, and are modelled as `""`.
- The identity provider, the database client and their errors: authentication is a boolean, database failure a boolean, and the new row's id and timestamps are parameters.
- `LandingPagesRoute.PostStatus`: a unique violation is modelled as the slug already being a key of the store; other database errors are the `dbAvailable` flag.
- Request-body fields of a non-string type, and a body that is JSON `null`: `CreateBody` holds strings, and an unparsable body is `None`.
- The `[slug]` route (GET/PUT/DELETE on one page) is not part of this model. The settings form sees its responses only as a status and a body with optional `error` and `slug`.
- Field order in the editor sidebar: fields and default props are maps, so the position given by the object spread is not modelled.
- React rendering, CSS classes, animation, and the editor's own rendering: a render is a tree of elements with a style map and component instances.
- Prices and every floating-point computation, including `toFixed(2)`: quantities, costs and scroll offsets are integers.
- `OfferSection.CountdownDecomposition`: proved for `diff >= 0` only. The time left until the next local midnight is never negative; `Date`, local midnight and daylight-saving changes are not modelled, and `diff` is the input.
- The clipboard copy in the publish dialog, its `copied` flag and the success/error views: display only.
- `PublishDialog.ClosesDialog`: assumes the dialog library reports an outside click or Escape it was not told to prevent as `onOpenChange(false)`; the library itself is not part of this model.
- Toast display and router navigation are returned as values, not performed.
- The presentational sections and image upload, which hold no rule-bearing state.
