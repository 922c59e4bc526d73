# short-url in Dafny

A model of the slug allocation and lookup logic of the short-url service.
The service is one Express server, written twice with the same logic
(`index.ts` and `index.js`), plus a small Vue form (`public/js/app.js`).

- `wrappers.dfy` (module `Wrappers`): `Option` and `Result`.
- `js_strings.dfy` (module `JsStrings`): the two JavaScript string operations
  the core depends on. `Trim` is `String.prototype.trim`, which strips
  ECMAScript WhiteSpace and LineTerminator code points. `Includes` is
  `String.prototype.includes`.
- `server.dfy` (module `Server`): both server files. It holds the request
  schema (`Validate`), the `urls` collection as the class `UrlStore` with a
  `map<string, string>` field, the `POST /url` handler, the `GET /:id`
  handler and the error handler.
  - `PostUrl` is the handler, written step by step. It validates, reassigns
    `slug`, calls `FindOne` and then `Insert`.
  - `CreateOutcome` is the same handler as a function of the collection.
    `PostUrl` is proved equal to it. The lemmas about creates, including any
    sequence of creates (`Replay`), are stated over `CreateOutcome`.
- `client.dfy` (module `Client`): the form as the class `Form`, with fields
  `url`, `slug`, `error`, `formVisible`, `created` and `loc`. `CheckForm` and
  `CreateUrl` are methods, and `Normalize` is the scheme rule.

The two server files have the same logic. Their line ranges pair up as
follows:

- schema: index.ts:46-54 and index.js:37-45
- resolve: index.ts:32-43 and index.js:24-35
- create: index.ts:68-95 and index.js:58-82
- error handler: index.ts:104-110 and index.js:91-102
- unique index: index.ts:17 and index.js:13

One model covers both files. The table below cites each file for different
members.

The only difference in logic is how the error handler writes the status.
`index.ts` uses `error.status || 500`, modelled by `ErrorStatus`. `index.js`
uses an `if`/`else`, modelled by `ErrorStatusBranching`.
`ErrorStatusFormsAgree` proves the two are equal.

Parameters stand for what the model cannot see:

- `isUrl: string -> bool` is the URL grammar of the validation library.
- `generated: GeneratedSlug` is what `nanoid(5)` returned, typed as five
  characters from nanoid's default alphabet `A-Za-z0-9_-`.
- `lookupFails: bool` means that `findOne` threw inside the redirect handler.
- `production: bool` means that `NODE_ENV` is `"production"`.
- `reply: Reply` is the server's answer as the form reads it.

Facts about the code that the model makes explicit:

- `POST /url` never answers a 400-class status for a failure inside the
  handler. A validation error, an in-use slug and a duplicate insert all
  answer 500. None of the errors thrown there sets `status`, so the error
  handler falls back to 500 (`CreateFailureReply`). Failures before the
  handler are different: malformed JSON is rejected by `express.json()`
  (index.ts:25) with status 400, and the rate limiter (index.ts:64-67)
  answers 429. Neither of those is modelled.
- A generated slug that collides is not retried. The unique index refuses the
  insert and the request fails (`GeneratedCollisionFails`).
- The schema tests trimmed values, but the handler discards what `validate`
  returns. The lookup and the insert therefore use the raw `slug` and `url`
  from the request (`CreateFrame`, `PaddedSlugStoredRaw`).
- The server never adds a scheme to a url. Only the browser form does
  (`Normalize`).

## Model

| member | source | states |
|---|---|---|
| `JsStrings.Trim` | index.ts:49 | the trimmed string starts and ends with a character that is not JavaScript whitespace |
| `JsStrings.TrimStripsWhitespace` | index.ts:49 | the trimmed string is a slice `s[a..b]` of the input, and every character before `a` and from `b` on is JavaScript whitespace |
| `JsStrings.Includes` | public/js/app.js:16 | `includes` is true exactly when the searched string occurs at some index of the url |
| `Server.Validate` | index.ts:46-54 | the slug field passes exactly when it is absent or its trimmed form passes the pattern, `min(5)` and `max(20)` tests; the url field passes exactly when it is present and its trimmed form is non-empty and a URL |
| `Server.SlugAcceptance` | index.ts:47-52 | a supplied slug is accepted exactly when its trimmed form has 5 to 20 characters, each in `[A-Za-z0-9_-]` |
| `Server.SchemaPasses` | index.js:37-45 | a request passes the whole schema exactly when its slug is absent or trims to 5 to 20 characters, each in `[A-Za-z0-9_-]`, and its url is present and trims to a non-empty string that is a URL |
| `Server.ValidatedSlugFalsyIffAbsent` | index.js:65-66 | after validation a slug is falsy exactly when it is absent, so the generated slug is used exactly for requests without a slug |
| `Server.GeneratedSlugPassesSchema` | index.ts:76-77 | a generated slug has 5 characters, is unchanged by trimming, and passes the same slug tests as a supplied one |
| `Server.UrlStore.FindOne` | index.ts:79 | finds a document exactly when the slug is a key of the collection, and returns that slug's url |
| `Server.UrlStore.Insert` | index.ts:90 | the result and the new collection are `InsertOutcome` of the old collection: because of the unique index (index.ts:17), an existing slug fails with `DuplicateSlug` and leaves the collection alone; otherwise exactly the pair is added and the record is returned |
| `Server.InsertOutcome` | index.js:13 | the insert succeeds exactly when the slug is not yet a key, and then returns the document and maps its slug to its url; otherwise it fails with `DuplicateSlug`; every stored pair is kept, and the keys grow by exactly the new slug on success and not at all on failure |
| `Server.PostUrl` | index.ts:68-95 | the handler's result and new collection equal `CreateOutcome`; a rejected request fails with its failing fields and changes nothing; any failure changes nothing; a success adds exactly one new pair and nothing else |
| `Server.InvalidRequestLeavesStore` | index.ts:71-83 | validation runs before any store access: a rejected request fails with `ValidationFailed` and the collection is unchanged |
| `Server.SlugInUseLeavesStore` | index.ts:79-82 | a valid request whose supplied slug is already stored fails with `SlugInUse`, and the collection, with the original mapping, is unchanged |
| `Server.CreateFrame` | index.ts:85-91 | a failure leaves the collection unchanged; a success stores the raw request `url` under the raw supplied slug (or, when none was supplied, the generated one), that slug was new, and every other entry is unchanged |
| `Server.CreateSucceedsOnFreeSlug` | index.js:73-78 | a valid request succeeds whenever the slug it will use is not yet stored |
| `Server.GeneratedCollisionFails` | index.ts:90-93 | a request without a slug whose generated slug is already stored fails with `DuplicateSlug` and the collection is unchanged: there is no retry |
| `Server.PaddedSlugPasses` | index.ts:47-49 | a valid slug with a space in front passes the schema, because the slug is trimmed before it is tested |
| `Server.PaddedSlugStoredRaw` | index.ts:69-88 | a valid slug with a leading space passes validation, and the padded slug is stored, not its trimmed form |
| `Server.ResolutionStatus` | index.js:28-33 | the redirect handler answers 302 exactly for a redirect and 404 otherwise, never a 5xx |
| `Server.GetSlug` | index.ts:32-43 | redirects exactly when the lookup does not throw and the id is stored, and then to the stored url; otherwise 404, including when the lookup throws |
| `Server.CreateThenResolve` | index.js:27-29 | after a successful create, its slug redirects to the request's url |
| `Server.SecondCreateSameSlug` | index.js:67-71 | once a create with a supplied slug succeeds, a second valid create with the same slug fails with `SlugInUse`, and the slug still redirects to the first url |
| `Server.CreateGrows` | index.js:77 | one create keeps every stored pair and adds at most one slug |
| `Server.ReplayKeepsMappings` | index.ts:17 | after any sequence of creates, every slug stored at the start still maps to its original url, and the collection has grown by at most one slug per create |
| `Server.ErrorStatusFormsAgree` | index.js:92-96 | the index.js `if`/`else` status equals the index.ts status, `error.status` when truthy and otherwise 500; it is 500 exactly when the status is absent, 0 or 500 |
| `Server.ErrorBody` | index.ts:104-110 | the reply always has `success = false` and the error's message, its status is `error.status` when truthy and otherwise 500, and the stack is `"🥞"` in production and `error.stack` otherwise |
| `Server.CreateFailureReply` | index.js:97-101 | every create failure, validation included, is answered with status 500 and `success = false`; an in-use slug carries "Slug is in use. 😔"; production hides the stack |
| `Client.NormalizeSpec` | public/js/app.js:15-18 | `http://` is prefixed exactly when neither `https://` nor `http://` occurs at any position of the url; otherwise the url is sent unchanged |
| `Client.NormalizeHasScheme` | public/js/app.js:16-17 | every normalised url contains `http://` or `https://` |
| `Client.NormalizeIdempotent` | public/js/app.js:17 | normalising a normalised url changes nothing |
| `Client.NormalizeKeepsEmbeddedScheme` | public/js/app.js:16 | because the test looks for a substring, a schemeless url whose query holds `https://` is left unchanged |
| `Client.SlugParam` | public/js/app.js:26 | an empty slug is sent as undefined, i.e. left out; any other slug is sent as typed |
| `Client.Form.constructor` | public/js/app.js:3-10 | the initial data: empty url, slug and error, form shown, nothing created, `loc` set to the origin |
| `Client.Form.CheckForm` | public/js/app.js:42-49 | returns false with `error = "URL required."` exactly when `url` is empty, and otherwise returns true with `error = ""` |
| `Client.Form.CreateUrl` | public/js/app.js:12-41 | when `checkForm` fails, no request is sent and `formVisible` and `created` are unchanged. Otherwise it posts the normalised url and the slug parameter. Then an ok reply hides the form and sets `created = loc + "/" + slug`, a 429 sets the fixed too-many-requests message, and any other reply sets the server's `message`. The form stays shown exactly until a link is created |

## Left out

- Express routing and the rest of the HTTP plumbing: middleware wiring, `express.static`, sending the 404 page, `morgan` logging and `app.listen`. Only their outcomes are modelled: the redirect target, 404 or the error reply.
- The `express-slow-down` and `express-rate-limit` middleware (index.ts:59-67). They work over per-IP time windows. A 429 appears only as a possible reply to the form.
- MongoDB through `monk`, and the configuration loaded through `dotenv`. The collection is a map. Storage-assigned fields such as `_id` are not part of the record.
- Storage failures inside `POST /url`, such as `findOne` or `insert` throwing for a reason other than a duplicate slug. Such a failure would also reach the error handler with no `status` and give a 500.
- `nanoid`'s randomness. The generated slug is a parameter, constrained only to length 5 and nanoid's alphabet. Its distribution is not modelled.
- The URL grammar of the validation library's `url()` test. It is the parameter `isUrl`.
- The wording of the validation library's error messages, and which one is reported first when both fields fail. `Validate` gives the set of failing fields, and the library message is a parameter of `Thrown`.
- Request bodies whose `slug` or `url` is not a string or is `null`. The type coercions of the validation library are not modelled. An absent field is `None`.
- String lengths are counted in Unicode scalar values, while JavaScript counts UTF-16 code units. The two differ only on characters outside the Basic Multilingual Plane, and such characters fail the slug pattern anyway.
- The race between `findOne` and `insert` when two requests run concurrently. The model is sequential. In it, a second create with a supplied slug is stopped by the `findOne` pre-check (index.ts:79-82) with `SlugInUse` (`SecondCreateSameSlug`). The unique index matters only for generated slugs (`GeneratedCollisionFails`). Under concurrency, both requests can pass the pre-check. The loser then gets the store's duplicate-key error, answered with 500 and the store's message rather than "Slug is in use. 😔". That interleaving is not modelled.
- `fetch`, JSON parsing, and the reactivity of Vue in the form. The reply is modelled only as its status, its `slug` and its `message`.
