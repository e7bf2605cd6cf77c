# A verified model of the portfolio site's logic

This project models in Dafny the logic inside a portfolio and blog site written in TypeScript on React, with a Supabase back end. Most of the site is presentation. The parts modelled here are the ones that compute or decide something:

- **Rate limiting and sanitising.** The fixed-window rate limiter, its browser-fingerprint hash, and the e-mail, name and script sanitisers (`src/lib/security.ts`).
- **Admin gating.**
  - The serverless check that decides whether a bearer token belongs to an administrator (`supabase/functions/verify-admin/index.ts`).
  - The admin page's own gate and editor state (`src/pages/Admin.tsx`).
- **Sign-in and sign-up.** The validation schema, the branching and the error messages (`src/pages/Auth.tsx`).
- **Stored settings.** The EmailJS credentials kept in `localStorage` (`src/lib/config.ts`).
- **Forms and content.**
  - The contact form (`src/components/contact/ContactForm.tsx`).
  - The blog-post editor's slug generator and save handler (`src/components/admin/CreateEditPost.tsx`).
  - The blog index's search and author join (`src/pages/Blog.tsx`).
  - The sitemap generator (`scripts/generate-sitemap.mjs`).
- **Widgets.**
  - The chatbot's canned answers (`src/components/ai-bot/BotChat.tsx`).
  - The testimonial carousel (`src/components/home/TestimonialCarousel.tsx`).
  - The admin calendar (`src/components/admin/CalendarWidget.tsx`).
  - The admin sidebar (`src/components/admin/AdminSidebar.tsx`).
- **Analytics, filters and listings.**
  - The analytics session id (`src/hooks/useAnalytics.ts`).
  - The project category filters (`src/pages/Projects.tsx`, `src/pages/Portfolio.tsx`).
  - The services page's structured data (`src/pages/Services.tsx`).

**How things are modelled.**
- **Pure logic becomes functions.** Each has lemmas relating it to an independent description.
- **State becomes classes.** A React component's state, the rate-limit table, `sessionStorage` and `localStorage` are classes whose methods change their fields and say in `ensures` how. Toasts, navigations, database writes and EmailJS calls are recorded in sequence fields, not performed.
- **Loops become methods.** Each loop in the source is a method with invariants, proved equal to a specification function.
- **Foreign calls and the clock become parameters.** Supabase, EmailJS, the clock, `Math.random`, `navigator` and `window` are never called: their answers are passed in.

**Shared modules.**
- `Base`: `Option` and JavaScript truthiness of an optional string.
- `JsText`: the string semantics the code relies on:
  - the `\s` class and `trim`;
  - `toLowerCase` on the characters that can matter;
  - `includes`, `indexOf`, `replace` with a string pattern, and `split(sep)[0]`;
  - UTF-16 lengths;
  - decimal rendering.
- `Lists`: `filter` and the `[...new Set(xs)]` dedupe.

**Verification.** Every file verifies with Dafny 4.11:

```
dafny verify --resource-limit 2000000 --verification-time-limit 0 --warn-contradictory-assumptions *.dfy
```

## Model

| member | source | states |
|---|---|---|
| RateLimiting.FingerprintId | src/lib/security.ts:28-45 | the decimal text of the absolute value of the 32-bit hash of the joined signals |
| RateLimiting.ToInt32 | src/lib/security.ts:42 | `hash & hash` lands in the signed 32-bit range |
| RateLimiting.ToInt32Congruent | src/lib/security.ts:41-42 | values that differ by a multiple of 2^32 wrap to the same 32-bit integer |
| RateLimiting.HashLoopStepClosedForm | src/lib/security.ts:41-42 | the loop's `((h << 5) - h) + c` then `& ` step equals the rolling hash `ToInt32(31*h + c)` |
| RateLimiting.Hash | src/lib/security.ts:38-43 | the hash of any code-unit sequence is a signed 32-bit integer |
| RateLimiting.HashLoopExtends | src/lib/security.ts:39-43 | one loop iteration extends the hash of a prefix to the hash of the next prefix |
| RateLimiting.GenerateClientId | src/lib/security.ts:28-45 | the loop over `charCodeAt` returns the decimal text of the absolute fingerprint hash |
| RateLimiting.FingerprintIdIsBoundedNumeral | src/lib/security.ts:29-44 | the fingerprint id is all decimal digits, its value is the absolute hash, and it is at most 2^31 |
| RateLimiting.CheckStep | src/lib/security.ts:47-67 | `check` opens a fresh window `{1, now+windowMs}` when there is no entry or `now > resetTime`; inside a window it refuses at `count >= maxRequests` leaving the table unchanged, otherwise it increments the count by one; other keys are untouched |
| RateLimiting.RemainingTime | src/lib/security.ts:69-74 | 0 without an entry, otherwise `max(0, resetTime - now)` |
| RateLimiting.CheckKeepsCountsBounded | src/lib/security.ts:52-66 | every count stays within `1 .. max(1, maxRequests)` across any `check` |
| RateLimiting.ResetBoundaryIsStrict | src/lib/security.ts:52 | at exactly `now == resetTime` a full window still refuses, with 0 ms remaining; one millisecond later it accepts |
| RateLimiting.KeysAreIndependent | src/lib/security.ts:11 | a check on one client id changes neither the answer nor the remaining time of another id in the shared table |
| RateLimiting.RefusalCooldown | src/lib/security.ts:60-74 | a refusal happens only inside a window, and the remaining time is then exactly `resetTime - now` |
| RateLimiting.RunChecks | src/lib/security.ts:47-67 | a run of checks gives one answer per call |
| RateLimiting.BurstInsideOneWindow | src/lib/security.ts:52-66 | in a window opened at `start`, the k-th call succeeds exactly when `k < max(1, maxRequests)` |
| RateLimiting.WindowContinues | src/lib/security.ts:60-66 | inside an existing window with count c, the k-th further call succeeds exactly when `c + k < max(1, maxRequests)` |
| RateLimiting.RateLimitStore.constructor | src/lib/security.ts:11 | the module-level table starts empty |
| RateLimiting.RateLimit.constructor | src/lib/security.ts:20-23 | stores the two parameters as given (defaults 3 and 60000), with no validation, over the shared table |
| RateLimiting.RateLimit.Check | src/lib/security.ts:47-67 | an empty or missing identifier falls back to the fingerprint id; the answer and the new table are those of `CheckStep` |
| RateLimiting.RateLimit.GetRemainingTime | src/lib/security.ts:69-74 | returns `RemainingTime` for the resolved id and never changes the table |
| Sanitize.ScriptBlockAt | src/lib/security.ts:120 | a match of the script-block pattern starts with `<script` and ends with `</script>`, case-insensitively |
| Sanitize.ScriptBlockNeedsTags | src/lib/security.ts:120 | a text with a script block contains both tags |
| Sanitize.StripScriptBlocks | src/lib/security.ts:120 | the first pass shortens the text exactly when it holds a script block |
| Sanitize.StripScriptBlocksNeedsBothTags | src/lib/security.ts:120 | a text missing either tag passes the first replacement unchanged |
| Sanitize.UnclosedScriptKept | src/lib/security.ts:120 | an opening `<script` with no closing tag after it survives the first replacement, with all the text after it, even where script elements before it are removed |
| Sanitize.RemoveAllCI | src/lib/security.ts:121 | the `javascript:` pass changes the text exactly when the word occurs in any case |
| Sanitize.HandlerAt | src/lib/security.ts:122 | a match of `on\w+\s*=` is `on`, a maximal word run, a maximal whitespace run and `=` |
| Sanitize.HandlerAtComplete | src/lib/security.ts:122 | every text of the handler shape is matched, with the length the greedy runs give |
| Sanitize.HandlerShapeIsGreedy | src/lib/security.ts:122 | the shape's word and whitespace runs are the maximal ones, so no backtracking changes the match |
| Sanitize.StripHandlers | src/lib/security.ts:122 | the third pass shortens the text exactly when an event-handler attribute occurs |
| Sanitize.RemoveScripts | src/lib/security.ts:118-123 | the output is never longer, and equals the input exactly when none of the three patterns occurs |
| Sanitize.RemoveScriptsKeepsPlainText | src/lib/security.ts:118-123 | text without `<script`, `javascript:` and handler attributes is returned unchanged |
| Sanitize.NoHandlerWithoutO | src/lib/security.ts:122 | without an `o` or `O` no handler attribute can match |
| Sanitize.HandlerPassMerges | src/lib/security.ts:122 | removing the matches of `oonx=nx=` in one pass joins its pieces into a new match |
| Sanitize.RemoveScriptsCanLeaveHandler | src/lib/security.ts:118-123 | `removeScripts("oonx=nx=")` still holds a handler attribute |
| Sanitize.SampleFirstPasses | src/lib/security.ts:120-121 | the first two passes leave `oonx=nx=` as it is |
| Sanitize.RemoveScriptsToFixpoint | src/lib/security.ts:118-123 | repeating the passes until nothing changes leaves none of the three patterns, and `removeScripts` then changes nothing |
| Sanitize.FixpointAgreesOnPlainText | src/lib/security.ts:118-123 | on text with none of the patterns, the repeated version and the one-pass version both return the input |
| Sanitize.EmailShapeToAddress | src/lib/security.ts:129 | a match of the e-mail pattern has one `@` and a domain with an inner `.` |
| Sanitize.AddressToEmailShape | src/lib/security.ts:129 | every such address matches the e-mail pattern |
| Sanitize.EmailShapeIsAddress | src/lib/security.ts:129 | the pattern accepts exactly the texts with one `@`, a non-empty local part, no whitespace and a domain with a `.` that has a character on either side |
| Sanitize.ValidEmail | src/lib/security.ts:128-140 | `email` is true exactly for such an address with none of the four dangerous patterns and at most 254 UTF-16 units |
| Sanitize.NameTextAvoids | src/lib/security.ts:146-156 | a pattern with a character outside the name alphabet cannot occur in a name-alphabet text |
| Sanitize.NameCharsNotSuspicious | src/lib/security.ts:146-161 | a text of letters, whitespace, `'` and `-` never matches a suspicious pattern |
| Sanitize.CheckName | src/lib/security.ts:145-168 | valid exactly for 2 to 50 name-alphabet characters; the log fires exactly on a suspicious pattern; the two never coincide |
| VerifyAdmin.TokenOf | supabase/functions/verify-admin/index.ts:31 | `authHeader.replace('Bearer ', '')`: the first occurrence removed, wherever it is |
| VerifyAdmin.Handle | supabase/functions/verify-admin/index.ts:8-78 | `isAdmin` is true only with status 200 after one token lookup that found a user and a role check that returned `true`; every non-200 answer is a refusal with an error and no user id; at most one lookup of each kind |
| VerifyAdmin.PreflightComesFirst | supabase/functions/verify-admin/index.ts:10-12 | `OPTIONS` gets the CORS headers, no body and no lookups |
| VerifyAdmin.MissingHeaderRefused | supabase/functions/verify-admin/index.ts:15-22 | a missing or empty header is a 401 and nothing is looked up |
| VerifyAdmin.LooksUpStrippedToken | supabase/functions/verify-admin/index.ts:31-32 | the token looked up is the header without its first `Bearer ` |
| VerifyAdmin.UnknownUserRefused | supabase/functions/verify-admin/index.ts:34-40 | a lookup error or no user is a 401 and no role is checked |
| VerifyAdmin.RoleErrorRefused | supabase/functions/verify-admin/index.ts:51-57 | a role-check error is a 500 "Role check failed" |
| VerifyAdmin.AdminExactlyWhenRoleIsTrue | supabase/functions/verify-admin/index.ts:59-70 | a found user gets 200 with `isAdmin` exactly when the role data is `true` itself, and the user id |
| VerifyAdmin.ThrowsAreInternalErrors | supabase/functions/verify-admin/index.ts:71-77 | anything that throws after the preflight is a 500 "Internal server error" |
| VerifyAdmin.BearerPrefixStripped | supabase/functions/verify-admin/index.ts:31 | `Bearer <rest>` yields `<rest>` |
| VerifyAdmin.NoBearerKeptWhole | supabase/functions/verify-admin/index.ts:31 | a header without `Bearer ` is passed on whole |
| Admin.AdminPage.constructor | src/pages/Admin.tsx:13-17 | no user, loading, not admin, editor closed with no post; no navigation, toast or sign-out yet |
| Admin.AdminPage.CurrentView | src/pages/Admin.tsx:87-188 | loading first, then access denied for a non-admin, then the editor when open, otherwise the post list, each with `user?.id \|\| ""` |
| Admin.AdminPage.CheckAuth | src/pages/Admin.tsx:23-43 | without a session it only navigates to `/auth`; with one it stores the user, sets `isAdmin` to whether an admin row was found and stops loading; it shows no toast and leaves the editor as it was |
| Admin.AdminPage.OnAuthStateChange | src/pages/Admin.tsx:50-58 | a session re-runs the check; no session navigates to `/auth`; the editor is left as it was |
| Admin.AdminPage.HandleLogout | src/pages/Admin.tsx:63-70 | calls `signOut` once, appends the "Logged out" toast, then navigates to `/`; the page's own state, and with it the editor's consistency, is left as it was |
| Admin.AdminPage.HandleEdit | src/pages/Admin.tsx:72-75 | opens the editor on the given post |
| Admin.AdminPage.HandleCreateNew | src/pages/Admin.tsx:77-80 | opens the editor on no post |
| Admin.AdminPage.HandleCloseEditor | src/pages/Admin.tsx:82-85 | closes the editor and forgets the post |
| Auth.SchemaIssues | src/pages/Auth.tsx:14-18 | the schema's issues in field order; the first one's message is what is thrown at lines 51-53 |
| Auth.EmailIssuesEmpty | src/pages/Auth.tsx:15 | the e-mail field has no issue exactly when its trimmed text passes the format test and is at most 255 units long |
| Auth.PasswordIssuesEmpty | src/pages/Auth.tsx:16 | the password has no issue exactly when it is 6 to 100 units long |
| Auth.FullNameIssuesEmpty | src/pages/Auth.tsx:17 | an absent name has no issue; a present one none exactly when its trimmed text is 1 to 100 units long |
| Auth.SchemaAcceptsExactly | src/pages/Auth.tsx:14-18 | `safeParse` succeeds exactly on the inputs meeting all three fields' bounds |
| Auth.FirstIssueFollowsFieldOrder | src/pages/Auth.tsx:51-53 | the message thrown is the first issue of the first field, in schema order, that has one |
| Auth.LoginIgnoresName | src/pages/Auth.tsx:45-49 | in login mode the name field has no effect on validation |
| Auth.MapError | src/pages/Auth.tsx:105-116 | "user already registered" wins and alone switches to login; otherwise "invalid" with "credentials" gives the credentials text; otherwise a `TypeError` or a message containing "fetch" gives the connection text; otherwise the message, or its default when it is missing or empty |
| Auth.AuthPage.constructor | src/pages/Auth.tsx:21-26 | login mode, empty fields, not loading |
| Auth.AuthPage.OnMount | src/pages/Auth.tsx:30-37 | an existing session navigates to `/admin` |
| Auth.AuthPage.ToggleMode | src/pages/Auth.tsx:215 | flips the mode and nothing else |
| Auth.AuthPage.HandleAuth | src/pages/Auth.tsx:39-125 | an invalid input toasts the mapped first issue and calls nothing; a valid login signs in and on success toasts and navigates to `/admin`; a valid sign-up signs up and then, by the result, navigates, asks for confirmation or switches to login; every error goes through the mapping; loading ends false |
| Auth.AuthPage.SignInStep | src/pages/Auth.tsx:56-69 | records the sign-in call; on success toasts and navigates to `/admin` |
| Auth.AuthPage.SignUpStep | src/pages/Auth.tsx:70-104 | records the sign-up call with the name; a session navigates to `/admin`, an unconfirmed user asks for confirmation, anything else switches to login |
| Auth.AuthPage.ReportFailure | src/pages/Auth.tsx:105-122 | toasts the mapped message and switches to login only when the mapping says so |
| EmailConfig.Validate | src/lib/config.ts:42-51 | `validateEmailJSConfig`: all three ids non-empty and none equal to its placeholder |
| EmailConfig.StoredOf | src/lib/config.ts:58 | the stored text parses back to an object |
| EmailConfig.FallbackNeverValidates | src/lib/config.ts:32-50 | the placeholder configuration never validates |
| EmailConfig.ReadValidatesIff | src/lib/config.ts:15-50 | a configuration read from storage validates exactly when the stored object has all three fields non-empty and none is its placeholder |
| EmailConfig.StoreRoundTrip | src/lib/config.ts:18-25 | a valid configuration stored and read back is returned as it was |
| EmailConfig.ConfigStore.constructor | src/lib/config.ts:18 | the entry is whatever storage held |
| EmailConfig.ConfigStore.Get | src/lib/config.ts:15-37 | reads the stored configuration or the fallback; anything it returns that validates came from a usable stored object |
| EmailConfig.ConfigStore.Set | src/lib/config.ts:56-61 | throws exactly on an invalid configuration, leaving the entry unchanged; otherwise stores it so that `Get` returns it |
| ContactForm.PayloadOf | src/components/contact/ContactForm.tsx:40-45 | the template parameters: name, email, message, and the subject or "Contact Form Submission" when it is empty |
| ContactForm.With | src/components/contact/ContactForm.tsx:20-26 | the named field gets the value and every other field is kept |
| ContactForm.PayloadSubject | src/components/contact/ContactForm.tsx:43 | the subject sent is never empty: the entered one when non-empty, otherwise the default |
| ContactForm.PayloadPassesFieldsThrough | src/components/contact/ContactForm.tsx:40-45 | name, e-mail and message are sent as typed, and two forms give the same payload exactly when they agree up to an empty versus a default subject |
| ContactForm.ContactFormState.constructor | src/components/contact/ContactForm.tsx:12-18 | empty form, not submitting |
| ContactForm.ContactFormState.HandleChange | src/components/contact/ContactForm.tsx:20-26 | sets the field the event names |
| ContactForm.ContactFormState.StartSubmit | src/components/contact/ContactForm.tsx:30-46 | raises the flag, initialises EmailJS with the public key and sends the payload to the fixed service and template |
| ContactForm.ContactFormState.FinishSubmit | src/components/contact/ContactForm.tsx:48-71 | success clears the form and toasts thanks; failure keeps the form and toasts the error; the flag comes down |
| ContactForm.ContactFormState.HandleSubmit | src/components/contact/ContactForm.tsx:28-72 | exactly one send of the raw fields, then the success or failure outcome |
| CreateEditPost.PostDataOf | src/components/admin/CreateEditPost.tsx:122-131 | `postData`: the form's fields, a null image for an empty one, and `published_at` set to the clock's time exactly when published |
| CreateEditPost.GenerateSlug | src/components/admin/CreateEditPost.tsx:60-65 | `generateSlug`: lower-case, every run of characters other than `a-z0-9` becomes one dash, and a dash at either end is dropped (about it: the slug lemmas below) |
| CreateEditPost.CollapseRuns | src/components/admin/CreateEditPost.tsx:63 | the result has only `[a-z0-9-]`, never two dashes in a row, is empty only for empty input, and starts with a dash exactly when the input starts outside `[a-z0-9]` |
| CreateEditPost.StripKeepsShape | src/components/admin/CreateEditPost.tsx:64 | removing a leading and a trailing dash leaves a slug |
| CreateEditPost.GenerateSlugIsSlug | src/components/admin/CreateEditPost.tsx:60-65 | every generated slug is lower-case letters, digits and single inner dashes |
| CreateEditPost.SlugIsFixed | src/components/admin/CreateEditPost.tsx:60-65 | a slug is its own slug |
| CreateEditPost.GenerateSlugIdempotent | src/components/admin/CreateEditPost.tsx:60-65 | generating twice is generating once |
| CreateEditPost.SlugKeepsLettersAndDigits | src/components/admin/CreateEditPost.tsx:60-65 | the slug keeps every letter and digit of the lower-cased title, in order |
| CreateEditPost.PostDataFields | src/components/admin/CreateEditPost.tsx:122-131 | an empty image is sent as null, `published_at` is set exactly for a published post, the author is the editing user, the rest is copied |
| CreateEditPost.PostEditor.constructor | src/components/admin/CreateEditPost.tsx:18-26 | empty fields, unpublished, not loading |
| CreateEditPost.PostEditor.HandleTitleChange | src/components/admin/CreateEditPost.tsx:67-72 | sets the title; regenerates the slug only for a new post; the slug stays a slug |
| CreateEditPost.PostEditor.HandleSlugChange | src/components/admin/CreateEditPost.tsx:196 | the slug field holds the slug of what was typed |
| CreateEditPost.PostEditor.HandleSave | src/components/admin/CreateEditPost.tsx:110-168 | a missing title, content or slug toasts and writes nothing; otherwise one update (existing post) or insert (new post) of `postData`, then the success toast and `onClose`, or the error toast |
| Blog.FilterPosts | src/pages/Blog.tsx:34-45 | `filteredPosts`: every post for an empty query, else the posts whose title or excerpt contains it case-insensitively, in order |
| Blog.EmptyQueryShowsAll | src/pages/Blog.tsx:42-44 | an empty query shows every post |
| Blog.QueryKeepsExactlyMatches | src/pages/Blog.tsx:35-41 | a query keeps exactly the posts whose lower-cased title or excerpt contains the lower-cased query |
| Blog.QueryKeepsOrder | src/pages/Blog.tsx:36-40 | the search keeps the posts' order |
| Blog.FetchProfiles | src/pages/Blog.tsx:69-77 | the loop maps each author id whose lookup gave a non-empty list to that list's first profile |
| Blog.JoinGivesEachPostItsProfile | src/pages/Blog.tsx:68-83 | one post per row in query order, with its author's first profile exactly when the lookup gave one |
| Blog.BlogPage.constructor | src/pages/Blog.tsx:25-28 | no posts, empty query, loading |
| Blog.BlogPage.FetchPosts | src/pages/Blog.tsx:47-92 | a failed query leaves the posts; otherwise both lists become the joined posts; loading ends |
| Blog.BlogPage.SearchEffect | src/pages/Blog.tsx:34-45 | the shown posts are the filter of all posts by the query |
| Blog.BlogPage.SetSearchQuery | src/pages/Blog.tsx:118 | typing sets the query and the shown posts follow it |
| Lists.Filter | src/pages/Blog.tsx:36 | `filter` keeps exactly the elements that pass |
| Lists.FilterConcat | src/pages/Projects.tsx:118 | filtering works piecewise, so order is kept |
| Lists.Dedupe | src/pages/Blog.tsx:68 | `[...new Set(xs)]` holds each value of `xs` once and nothing else |
| Lists.DedupeKeepsFirstOccurrenceOrder | src/pages/Blog.tsx:68 | the distinct values come out in order of first occurrence |
| Sitemap.Document | scripts/generate-sitemap.mjs:48-55 | the XML header, the `<url>` blocks joined by newlines, and the footer |
| Sitemap.Entries | scripts/generate-sitemap.mjs:34-46 | `urls`: one entry per static route, then one per post row with a slug, in order |
| Sitemap.WithoutTrailingSlash | scripts/generate-sitemap.mjs:37 | removes one trailing slash, exactly when there is one |
| Sitemap.StaticRoutesComeFirst | scripts/generate-sitemap.mjs:23-38 | the first five entries are the static routes in order under the slash-less site URL |
| Sitemap.PostEntriesSkipSluglessPosts | scripts/generate-sitemap.mjs:40-46 | the post loop yields exactly the posts with a slug, in query order |
| Sitemap.EntryCount | scripts/generate-sitemap.mjs:34-46 | five entries plus one per post with a slug |
| Sitemap.BuildUrls | scripts/generate-sitemap.mjs:34-46 | the two loops build exactly the entry list |
| Sitemap.JoinLength | scripts/generate-sitemap.mjs:51 | the joined body is the blocks plus one newline between neighbours |
| Sitemap.DocumentAppend | scripts/generate-sitemap.mjs:48-55 | one more entry adds a newline and its block just before the footer |
| Sitemap.EmptyDocument | scripts/generate-sitemap.mjs:48-55 | no entries give the header and the footer |
| Sitemap.Generate | scripts/generate-sitemap.mjs:20-63 | a failed query writes nothing; otherwise the document of the entries for `SITE_URL` or its default |
| BotChat.ResponseAsWritten | src/components/ai-bot/BotChat.tsx:35-52 | the answer as written: as `ResponseOf`, except that "constructor" and "__proto__" reach the inherited member of the table |
| BotChat.ResponseOf | src/components/ai-bot/BotChat.tsx:35-52 | the answer with only the table's own keys looked up: the exact key's reply, else the first key contained in the input, else the default reply |
| BotChat.Normalize | src/components/ai-bot/BotChat.tsx:36 | `input.toLowerCase().trim()` |
| BotChat.ExactIndex | src/components/ai-bot/BotChat.tsx:39-41 | finds the key equal to the normalised input, or shows none is |
| BotChat.FirstContained | src/components/ai-bot/BotChat.tsx:44-48 | finds the first key in declaration order contained in the input, or shows none is |
| BotChat.KeysDistinct | src/components/ai-bot/BotChat.tsx:19-33 | the table's keys are distinct |
| BotChat.ExactMatchWins | src/components/ai-bot/BotChat.tsx:36-41 | an input that normalises to a key gets that key's reply, even when it contains an earlier key |
| BotChat.FirstContainedKeyWins | src/components/ai-bot/BotChat.tsx:44-48 | without an exact key, the first contained key in declaration order decides |
| BotChat.NoKeyGivesDefault | src/components/ai-bot/BotChat.tsx:51 | an input containing no key gets the default reply |
| BotChat.ThisGetsTheHiReply | src/components/ai-bot/BotChat.tsx:44-48 | "this" gets the reply to "hi" |
| BotChat.GoodbyeGetsItsOwnReply | src/components/ai-bot/BotChat.tsx:36-41 | "Goodbye" gets the goodbye reply, not the one for the contained "bye" |
| BotChat.PricesSuggestionGetsDefault | src/components/ai-bot/BotChat.tsx:134-139 | the suggested question "What are your prices?" contains no key, not even "pricing", and gets the default reply |
| BotChat.GetResponse | src/components/ai-bot/BotChat.tsx:35-52 | the exact lookup then the loop over the entries returns `ResponseOf(input)` |
| BotChat.ConstructorIsNotAnswerText | src/components/ai-bot/BotChat.tsx:39-40 | as written, "constructor" returns `Object`'s inherited member instead of a reply text |
| BotChat.ConstructorGetsDefault | src/components/ai-bot/BotChat.tsx:51 | looking up own keys only, "constructor" gets the default reply |
| BotChat.OwnKeysAgreeElsewhere | src/components/ai-bot/BotChat.tsx:35-52 | outside the inherited names the two lookups agree, and the answer is the default or one of the table's replies |
| BotChat.BotChatState.constructor | src/components/ai-bot/BotChat.tsx:66-68 | no messages, empty input, not typing |
| BotChat.BotChatState.Mount | src/components/ai-bot/BotChat.tsx:72-86 | the list becomes the welcome message with id "1" |
| BotChat.BotChatState.ShowsSuggestions | src/components/ai-bot/BotChat.tsx:191 | the suggested questions show exactly while the welcome message is the only message |
| BotChat.BotChatState.ClickSuggestion | src/components/ai-bot/BotChat.tsx:195-205 | a suggestion fills the input with its question |
| BotChat.BotChatState.SetInput | src/components/ai-bot/BotChat.tsx:213 | the input box holds what was typed |
| BotChat.BotChatState.HandleSend | src/components/ai-bot/BotChat.tsx:94-107 | a blank input changes nothing; otherwise the user message is appended, the reply is scheduled, the input is cleared and typing shows |
| BotChat.BotChatState.DeliverReply | src/components/ai-bot/BotChat.tsx:109-119 | appends the bot message with the reply to that scheduled input, removes it from the schedule and stops typing |
| Carousel.StyleOf | src/components/home/TestimonialCarousel.tsx:78-94 | the transform, opacity and z-index of the active card, its neighbours and the hidden cards |
| Carousel.Next | src/components/home/TestimonialCarousel.tsx:42-44 | the next index wraps from the last to 0 and otherwise adds one |
| Carousel.Prev | src/components/home/TestimonialCarousel.tsx:46-48 | the previous index wraps from 0 to the last and otherwise subtracts one |
| Carousel.PrevUndoesNext | src/components/home/TestimonialCarousel.tsx:42-48 | previous after next returns to the same card |
| Carousel.NextUndoesPrev | src/components/home/TestimonialCarousel.tsx:42-48 | next after previous returns to the same card |
| Carousel.Classify | src/components/home/TestimonialCarousel.tsx:73-94 | active exactly at the current index, previous when not active and at the previous index, next when neither and at the next index |
| Carousel.ActiveCardOnTop | src/components/home/TestimonialCarousel.tsx:78-94 | only the active card is on top and fully opaque; only hidden cards are invisible |
| Carousel.CountsAddUp | src/components/home/TestimonialCarousel.tsx:73-94 | every card has exactly one placement |
| Carousel.PlacementCounts | src/components/home/TestimonialCarousel.tsx:73-94 | with three or more cards: one active, one previous, one next, the rest hidden |
| Carousel.FourTestimonials | src/components/home/TestimonialCarousel.tsx:7-40 | with the four testimonials exactly one card is hidden |
| Carousel.TwoCards | src/components/home/TestimonialCarousel.tsx:75-90 | with two cards the other is both previous and next, and the chain calls it previous |
| Carousel.TestimonialCarousel.constructor | src/components/home/TestimonialCarousel.tsx:5 | starts on the first card |
| Carousel.TestimonialCarousel.NextTestimonial | src/components/home/TestimonialCarousel.tsx:42-53 | the right button and each interval tick move to `Next` |
| Carousel.TestimonialCarousel.PrevTestimonial | src/components/home/TestimonialCarousel.tsx:46-48 | the left button moves to `Prev` |
| Carousel.TestimonialCarousel.SelectIndicator | src/components/home/TestimonialCarousel.tsx:168 | a dot jumps to its card |
| Calendar.DaysInMonth | src/components/admin/CalendarWidget.tsx:19 | 28 to 31 days, February 29 exactly in a leap year |
| Calendar.DayNumber | src/components/admin/CalendarWidget.tsx:18 | the day count from 1 January 1970 in the proleptic Gregorian calendar, behind `getDay()` |
| Calendar.Weekday | src/components/admin/CalendarWidget.tsx:18 | `getDay()` is in 0..6 |
| Calendar.KnownWeekdays | src/components/admin/CalendarWidget.tsx:18 | 1 January 1970 is day 0, a Thursday, and so is 1 October 2026 |
| Calendar.MonthStartsFollow | src/components/admin/CalendarWidget.tsx:18-19 | the first of the next month falls exactly the month's length in days after the first of this month |
| Calendar.GetDaysInMonth | src/components/admin/CalendarWidget.tsx:15-29 | the grid holds one blank per weekday before the first, then the days 1 to the month's length in order |
| Calendar.AtMostOneToday | src/components/admin/CalendarWidget.tsx:66-70 | at most one cell is highlighted, and only in today's month and year |
| Calendar.TodayIsHighlighted | src/components/admin/CalendarWidget.tsx:66-70 | in today's month, today's cell is highlighted |
| Calendar.Normalized | src/components/admin/CalendarWidget.tsx:42 | `new Date(year, month)` carries the month into the year, keeping `year*12 + month` |
| Calendar.PrevMonth | src/components/admin/CalendarWidget.tsx:42 | `new Date(year, month - 1)` read back, for a year the constructor takes as it is |
| Calendar.NextMonth | src/components/admin/CalendarWidget.tsx:53 | `new Date(year, month + 1)` read back, for a year the constructor takes as it is |
| Calendar.MonthStep | src/components/admin/CalendarWidget.tsx:42-53 | the buttons move by exactly one month, wrapping the year |
| Calendar.PrevUndoesNext | src/components/admin/CalendarWidget.tsx:42-53 | back after forward returns to the same month |
| Calendar.NextUndoesPrev | src/components/admin/CalendarWidget.tsx:42-53 | forward after back returns to the same month |
| Calendar.PrevMonthAsWritten | src/components/admin/CalendarWidget.tsx:42 | the previous button as written, where a year from 0 to 99 is read as 1900 + year |
| Calendar.NextMonthAsWritten | src/components/admin/CalendarWidget.tsx:53 | the next button as written, where a year from 0 to 99 is read as 1900 + year |
| Calendar.YearNinetyNineJumps | src/components/admin/CalendarWidget.tsx:42-53 | as written, from December 99 the next button jumps to January 2000 and the previous one to November 1999 |
| Calendar.AsWrittenAgreesElsewhere | src/components/admin/CalendarWidget.tsx:42-53 | outside the years 0 to 99 the code as written moves by one month |
| Calendar.CalendarWidget.constructor | src/components/admin/CalendarWidget.tsx:7-8 | shows today's month |
| Calendar.CalendarWidget.Prev | src/components/admin/CalendarWidget.tsx:42 | the left button goes one month back |
| Calendar.CalendarWidget.Next | src/components/admin/CalendarWidget.tsx:53 | the right button goes one month forward |
| Calendar.CalendarWidget.Cells | src/components/admin/CalendarWidget.tsx:31-70 | the rendered cells are the month's grid, each highlighted exactly when it is today |
| AdminSidebar.FirstTwo | src/components/admin/AdminSidebar.tsx:23 | `substring(0, 2)` is the first two characters, or fewer for a shorter email |
| AdminSidebar.UserInitials | src/components/admin/AdminSidebar.tsx:21-26 | the upper-cased first two characters of a non-empty email, otherwise "JD" |
| AdminSidebar.InitialsOfEmail | src/components/admin/AdminSidebar.tsx:21-26 | with ASCII upper-casing, a non-empty email's initials have min(2, length) characters, each the capital of the email's character at that place |
| AdminSidebar.UserName | src/components/admin/AdminSidebar.tsx:28-30 | `getUserName`: the text before the first `@`, or "John Doe" when that is empty or there is no email (about it: the lemmas below) |
| AdminSidebar.UserNameIsLocalPart | src/components/admin/AdminSidebar.tsx:28-30 | the name is the text before the first `@`, without any `@`, when that text is non-empty |
| AdminSidebar.NoLocalPartShowsDefault | src/components/admin/AdminSidebar.tsx:29 | no email, an empty one or one starting with `@` shows "John Doe" |
| AdminSidebar.NoAtShowsWholeEmail | src/components/admin/AdminSidebar.tsx:29 | an email without `@` is shown whole |
| AdminSidebar.AsciiExample | src/components/admin/AdminSidebar.tsx:21-30 | "jane.doe@example.com" shows "JA" and "jane.doe" |
| AdminSidebar.MenuIdsDistinct | src/components/admin/AdminSidebar.tsx:14-19 | the menu's ids are distinct |
| AdminSidebar.ExactlyOneActive | src/components/admin/AdminSidebar.tsx:52-54 | whatever the active view, exactly one item is highlighted |
| AdminSidebar.ClickedView | src/components/admin/AdminSidebar.tsx:58 | a click asks for the clicked item's view, which highlights that item alone |
| Analytics.PageViewOf | src/hooks/useAnalytics.ts:27-33 | the inserted row, with a null `user_id` and `referrer` for missing or empty values |
| Analytics.GeneratedId | src/hooks/useAnalytics.ts:8 | `${Date.now()}-${suffix}`, with the random suffix a parameter |
| Analytics.GeneratedIdReadsBack | src/hooks/useAnalytics.ts:8 | a generated id is non-empty and its part before the first `-` reads back as the timestamp |
| Analytics.SessionStorage.constructor | src/hooks/useAnalytics.ts:6 | the stored id is whatever storage held |
| Analytics.SessionStorage.GetSessionId | src/hooks/useAnalytics.ts:5-12 | a stored non-empty id is returned as it is; otherwise a new one is stored and returned; afterwards storage holds the returned id |
| Analytics.OrNull | src/hooks/useAnalytics.ts:29-31 | `x \|\| null` is null exactly for a missing or empty string |
| Analytics.PageViewNulls | src/hooks/useAnalytics.ts:27-33 | the row's user id is null exactly without a user id, its referrer exactly for an empty referrer, and the rest is copied |
| Analytics.TrackPageView | src/hooks/useAnalytics.ts:16-37 | the session id is stored even when the user lookup throws, which inserts nothing; otherwise the row carries the session id now stored |
| CategoryFilter.FilteredProjects | src/pages/Projects.tsx:116-118 | every project for "all", else the projects of the active category, in order |
| CategoryFilter.AllShowsEverything | src/pages/Projects.tsx:116-117 | "all" shows every project in order |
| CategoryFilter.CategoryKeepsExactlyItsProjects | src/pages/Projects.tsx:118 | another category keeps exactly the projects filed under it |
| CategoryFilter.FilterKeepsOrder | src/pages/Portfolio.tsx:76-78 | the filter keeps the projects' order |
| CategoryFilter.UnusedCategoryShowsNothing | src/pages/Projects.tsx:118 | a category no project is filed under shows nothing |
| CategoryFilter.EveryCategoryIsUsed | src/pages/Projects.tsx:15-78 | every button but "all" has at least one project |
| CategoryFilter.ExactlyOneHighlighted | src/pages/Projects.tsx:199 | the active category's button is the only highlighted one |
| CategoryFilter.CategoryPage.constructor | src/pages/Portfolio.tsx:12 | the page opens on "all" |
| CategoryFilter.CategoryPage.SelectCategory | src/pages/Portfolio.tsx:103 | a button makes its category active |
| CategoryFilter.SeoProjectsShown | src/pages/Projects.tsx:24-118 | the SEO button shows the two SEO projects |
| Services.ItemList | src/pages/Services.tsx:149-160 | one list item per service |
| Services.ItemsFollowServices | src/pages/Services.tsx:156-158 | item i's name and description are service i's title and description |
| Services.PositionsConsecutive | src/pages/Services.tsx:154 | positions start at 1, rise by one at each step and end at the number of services |
| Services.ItemListConcat | src/pages/Services.tsx:152-160 | the list for two runs of services is the first run's list followed by the second's renumbered on, so the service order is kept |
| Services.PublishedList | src/pages/Services.tsx:42-160 | the six services give six items numbered 1 to 6, the first being "Social Media Management" |
| Services.Overview | src/pages/Services.tsx:218 | `slice(0, 3)` is the first three details, or all of a shorter list |
| Services.OverviewThenRest | src/pages/Services.tsx:218-258 | the overview followed by what it leaves out is the full list shown in the detail section, and it leaves something out exactly when there are more than three |
| Services.EveryServiceHasSixDetails | src/pages/Services.tsx:42-145 | every service has six details, of which the overview shows three |
| Services.OffsetsAlternate | src/pages/Services.tsx:19-20 | the first card comes from the left, each card from the side opposite its predecessor's, turned the other way |
| Services.OffsetSidesAgree | src/pages/Services.tsx:19-20 | a card comes from the left (-80, -15) exactly at even indices and otherwise from the right (80, 15) |
| JsText.UnicodeLowerKeepsLowerText | src/components/admin/CreateEditPost.tsx:62 | `toLowerCase` keeps text without capitals |
| JsText.IndexOf | supabase/functions/verify-admin/index.ts:31 | finds the first occurrence of the pattern, or shows there is none |
| JsText.BeforeFirst | src/components/admin/AdminSidebar.tsx:29 | `split(sep)[0]` is the longest prefix without the separator |
| JsText.TrimEmptyIff | src/components/ai-bot/BotChat.tsx:95 | `!s.trim()` holds exactly for whitespace-only text |
| JsText.DecimalRoundTrip | src/lib/security.ts:44 | the decimal rendering of a number reads back as the number |

## Left out

- `CSP.isAllowedDomain` (src/lib/security.ts:80-100): it needs WHATWG URL parsing, which is not modelled.
- `sanitize.html`: it delegates to the DOM's HTML serialiser.
- `validateEnvironment.emailjs`: it always returns true and decides nothing.
- `securityLog`: its output goes to the console. `CheckName` records whether the suspicious-input log would fire.
- The remaining time of `getRemainingTime`, `Date.now()`, `new Date().toISOString()`, `Math.random()`, `navigator`, `screen`, `window.location` and `document.referrer`: these are parameters.
- The Supabase calls, EmailJS and `fetch`: only their answers are modelled, as parameters. The failure of `JSON.parse` in `config.ts` is modelled by its outcome.
- Toasts, navigation and `onClose`: recorded in sequence fields, not performed.
- `RateLimiting.GenerateClientId`: the fingerprint's parts are parameters. `navigator.hardwareConcurrency || 0` is modelled as an optional number.
- `Auth`: the format test of `z.string().email()` is a parameter, since zod's e-mail pattern is not modelled. Lengths are UTF-16 lengths.
- `CreateEditPost`:
  - `loadPost` and `handleImageUpload` fetch and upload through the database and the storage bucket, which are not modelled.
  - An existing post's slug is loaded as stored, so `SlugWellFormed` covers only posts created in the editor.
- `toLowerCase` and `toUpperCase`:
  - `UnicodeLower` keeps every character outside ASCII except U+0130 and U+212A. Those two are the only ones whose lower case holds ASCII letters, and every comparison in the model is with ASCII text.
  - Where the code upper-cases (`AdminSidebar`) or lower-cases arbitrary text (`Blog`), the case mapping is a parameter.
- `AdminSidebar.FirstTwo`: counts characters, not UTF-16 units. It agrees with `substring(0, 2)` only on text in the Basic Multilingual Plane.
- `BotChat`:
  - Speech output, the scroll effect and the `timestamp` field are left out.
  - The reply delay is random and is not modelled as time: pending replies are delivered in any order.
  - The welcome text appears in the source file as the UTF-8 bytes of U+1F44B read as Windows-1252. The model uses the character itself.
- `Carousel`:
  - The five-second interval is modelled as calls of `NextTestimonial`.
  - The testimonials' texts are data only; their rendering is left out.
- `Calendar`:
  - `today` is fixed when the widget is built, while the source recomputes it on each render.
  - The month names and weekday letters of the header are left out.
  - The model's grid uses the displayed year as it is. For the years 0 to 99 the source builds the grid of the year 1900 + y instead.
- `Services`, `Projects`, `Portfolio`:
  - Icons, images, tags and markup are left out.
  - The gsap animation is left out, except its starting offsets. The cleanup that kills every scroll trigger is left out too.
- `Sitemap`:
  - Every `new Date().toISOString()` of one run is taken to read the same instant.
  - `new Date(published_at).toISOString()` is a parameter.
  - The file write, the console output and the process exits are left out. `Generate` returns None where the script exits.
  - The check for missing Supabase credentials happens before `generate` and is left out.
- `Blog`: `formatDistanceToNow` and the category badge only feed the rendering.
- BotChat.GetResponse: implements the corrected lookup of the Findings, which answers from the table's own keys only. As written, "constructor" and "__proto__" return `Object.prototype`'s member instead; `BotChat.ResponseAsWritten` models that.
- BotChat.BotChatState.DeliverReply: delivers the corrected reply of `GetResponse`. As written, the bot's message for "constructor" or "__proto__" would carry the inherited member, which is not text.
- Calendar.CalendarWidget.Prev: takes the corrected one-month step of the Findings. As written, for a month of the years 0 to 99 the step back is taken from the year 1900 + y; `Calendar.PrevMonthAsWritten` models that.
- Calendar.CalendarWidget.Next: takes the corrected one-month step of the Findings. As written, for a month of the years 0 to 99 the step forward is taken from the year 1900 + y; `Calendar.NextMonthAsWritten` models that.
- RateLimiting.RateLimit.constructor: `maxRequests`, `windowMs` and the clock are integers. JavaScript numbers may also be fractional or NaN, and with a NaN `maxRequests` the limiter would never refuse. No caller passes such values.
- Sitemap.Entries: the conversion `iso` of `published_at` is total. On an unparsable timestamp, `new Date(published_at).toISOString()` throws a RangeError and the script stops with an error, which the model does not capture.

## Findings

| source | as written | input that shows it | evidently intended | confidence | as-written member | corrected member |
|---|---|---|---|---|---|---|
| src/lib/security.ts:118-123 | one pass of each `replace` | `removeScripts("oonx=nx=")`: the one match is `onx=` at index 1; removing it leaves `onx=`, which the pattern still matches | the output holds no event-handler attribute | not executed | Sanitize.RemoveScriptsCanLeaveHandler | Sanitize.RemoveScriptsToFixpoint |
| src/components/ai-bot/BotChat.tsx:39-40 | `FAQ_RESPONSES[lowercaseInput]` on a plain object | "constructor" (or "__proto__") finds `Object.prototype`'s member, which is truthy, and is returned as the reply | only the table's own keys answer, so "constructor" gets the default reply | not executed | BotChat.ConstructorIsNotAnswerText | BotChat.ConstructorGetsDefault |
| src/components/admin/CalendarWidget.tsx:42-53 | `new Date(currentDate.getFullYear(), month ± 1)` | from December of year 99 the next button shows January 2000 and the previous one November 1999, since the constructor reads 0..99 as 1900..1999 | the buttons move by one month in every year | not executed | Calendar.YearNinetyNineJumps | Calendar.PrevUndoesNext |
