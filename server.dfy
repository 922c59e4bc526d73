/**
 * The URL-shortening server (index.ts; index.js holds the same logic):
 * the request schema, the `urls` collection with its unique index on
 * `slug`, the `POST /url` create handler, the `GET /:id` redirect handler
 * and the error handler that turns a thrown error into a JSON reply.
 */
module Server {
  import opened Wrappers
  import opened JsStrings

  // ---------------------------------------------------------------------
  // Schema
  // ---------------------------------------------------------------------

  const SlugMinLength := 5
  const SlugMaxLength := 20
  /** The length passed to `nanoid`. */
  const GeneratedSlugLength := 5

  /**
   * A character of the class `[\w\-]`. Without the `u` flag `\w` is
   * exactly `[A-Za-z0-9_]`, and the `i` flag adds nothing to it.
   */
  predicate IsSlugChar(c: char) {
    ('a' <= c <= 'z') || ('A' <= c <= 'Z') || ('0' <= c <= '9') || c == '_' || c == '-'
  }

  /** `/^[\w\-]+$/i` matches the whole of `t`. */
  predicate MatchesSlugPattern(t: string) {
    |t| >= 1 && forall i :: 0 <= i < |t| ==> IsSlugChar(t[i])
  }

  /** The `matches`, `min(5)` and `max(20)` tests, run on the trimmed slug. */
  predicate SlugRule(t: string) {
    MatchesSlugPattern(t) && SlugMinLength <= |t| && |t| <= SlugMaxLength
  }

  /**
   * The `required()` and `url()` tests, run on the trimmed url. `url()`
   * itself lets the empty string through and `required()` stops it; the
   * URL grammar of the validation library is the parameter `isUrl`.
   */
  predicate UrlRule(t: string, isUrl: string -> bool) {
    t != "" && isUrl(t)
  }

  /** The JSON body of `POST /url`; an absent field is `None`. */
  datatype Request = Request(slug: Option<string>, url: Option<string>)

  /** The two fields the schema checks. */
  datatype Field = SlugField | UrlField

  /**
   * `schema.validate({slug, url})`: the set of fields whose tests fail.
   * The slug is optional; the url is required. Both are tested after
   * trimming. The messages the library attaches are not modelled.
   */
  function Validate(req: Request, isUrl: string -> bool): (failed: set<Field>)
    ensures SlugField !in failed <==>
      (req.slug.None? ||
       (var t := Trim(req.slug.value);
        SlugRule(t)))
    ensures UrlField !in failed <==>
      (req.url.Some? && Trim(req.url.value) != "" && isUrl(Trim(req.url.value)))
  {
    var slugOk := req.slug.None? || SlugRule(Trim(req.slug.value));
    var urlOk := req.url.Some? && UrlRule(Trim(req.url.value), isUrl);
    if slugOk && urlOk then {}
    else if slugOk then {UrlField}
    else if urlOk then {SlugField}
    else {SlugField, UrlField}
  }

  /**
   * The whole schema in source terms: a request passes exactly when its
   * slug is absent or trims to 5..20 characters of `[A-Za-z0-9_-]`, and its
   * url is present and trims to a non-empty URL.
   */
  lemma SchemaPasses(req: Request, isUrl: string -> bool)
    ensures Validate(req, isUrl) == {} <==>
      && (req.slug.None? ||
          (5 <= |Trim(req.slug.value)| <= 20 &&
           forall i :: 0 <= i < |Trim(req.slug.value)| ==> IsSlugChar(Trim(req.slug.value)[i])))
      && req.url.Some? && Trim(req.url.value) != "" && isUrl(Trim(req.url.value))
  {
    var f := Validate(req, isUrl);
    assert f == {} <==> SlugField !in f && UrlField !in f;
  }

  /**
   * A supplied slug is accepted exactly when its trimmed form has 5 to 20
   * characters, each a letter, a digit, `_` or `-`.
   */
  lemma SlugAcceptance(req: Request, isUrl: string -> bool)
    requires req.slug.Some?
    ensures var t := Trim(req.slug.value);
      SlugField !in Validate(req, isUrl) <==>
        (5 <= |t| <= 20 && forall i :: 0 <= i < |t| ==> IsSlugChar(t[i]))
  {
  }

  /** JavaScript truthiness of the request's `slug`: present and non-empty. */
  predicate IsTruthy(slug: Option<string>) {
    slug.Some? && slug.value != ""
  }

  /**
   * A slug that passed validation is falsy exactly when it was absent, so
   * the handler generates a slug exactly for requests without one.
   */
  lemma ValidatedSlugFalsyIffAbsent(req: Request, isUrl: string -> bool)
    requires SlugField !in Validate(req, isUrl)
    ensures !IsTruthy(req.slug) <==> req.slug.None?
  {
  }

  /** What `nanoid(5)` returns: five characters of the alphabet `A-Za-z0-9_-`. */
  type GeneratedSlug = s: string | |s| == GeneratedSlugLength && forall i :: 0 <= i < |s| ==> IsSlugChar(s[i])
    witness "aaaaa"

  /**
   * A generated slug skips validation but would have passed the same slug
   * tests, untrimmed and trimmed alike.
   */
  lemma GeneratedSlugPassesSchema(g: GeneratedSlug)
    ensures Trim(g) == g
    ensures SlugRule(g)
  {
    assert !IsJsWhitespace(g[0]) && !IsJsWhitespace(g[|g| - 1]) by {
      assert IsSlugChar(g[0]) && IsSlugChar(g[|g| - 1]);
    }
    TrimUnpadded(g);
  }

  // ---------------------------------------------------------------------
  // The `urls` collection
  // ---------------------------------------------------------------------

  /** A document of the `urls` collection (storage-assigned `_id` left out). */
  datatype UrlRecord = UrlRecord(url: string, slug: string)

  /** Why `POST /url` failed. */
  datatype CreateError =
    | ValidationFailed(fields: set<Field>)
      // the schema rejected the request
    | SlugInUse
      // the supplied slug was found in the collection
    | DuplicateSlug
      // the unique index on `slug` refused the insert

  /**
   * The `urls` collection: slug to url. The unique index on `slug` is what
   * makes `Insert` of an existing slug fail; since the collection is a map,
   * each slug holds at most one url at any time.
   */
  class UrlStore {
    var urls: map<string, string>

    constructor ()
      ensures urls == map[]
    {
      urls := map[];
    }

    /** `urls.findOne({slug})`: the document with exactly this slug, if any. */
    method FindOne(slug: string) returns (doc: Option<UrlRecord>)
      ensures doc.Some? <==> slug in urls
      ensures doc.Some? ==> doc.value.slug == slug && doc.value.url == urls[slug]
    {
      if slug in urls {
        doc := Some(UrlRecord(urls[slug], slug));
      } else {
        doc := None;
      }
    }

    /**
     * `urls.insert(doc)`: adds the document, or fails on the unique index
     * when its slug is already there, leaving the collection as it was.
     */
    method Insert(doc: UrlRecord) returns (r: Result<UrlRecord, CreateError>)
      modifies this
      ensures doc.slug in old(urls) ==> r == Failure(DuplicateSlug) && urls == old(urls)
      ensures doc.slug !in old(urls) ==> r == Success(doc) && urls == old(urls)[doc.slug := doc.url]
      ensures Outcome(r, urls) == InsertOutcome(old(urls), doc)
    {
      if doc.slug in urls {
        r := Failure(DuplicateSlug);
      } else {
        urls := urls[doc.slug := doc.url];
        r := Success(doc);
      }
    }
  }

  /** The collection after a create request, with the handler's result. */
  datatype Outcome = Outcome(result: Result<UrlRecord, CreateError>, urls: map<string, string>)

  /**
   * `urls.insert` as a function of the collection: it succeeds exactly for
   * a new slug, returns the document, keeps every stored pair and adds at
   * most that one slug.
   */
  function InsertOutcome(urls: map<string, string>, doc: UrlRecord): (o: Outcome)
    ensures o.result.Success? <==> doc.slug !in urls
    ensures o.result.Success? ==> o.result.value == doc && doc.slug in o.urls && o.urls[doc.slug] == doc.url
    ensures o.result.Failure? ==> o.result.error == DuplicateSlug
    ensures forall s :: s in urls ==> s in o.urls && o.urls[s] == urls[s]
    ensures o.urls.Keys == urls.Keys + (if o.result.Success? then {doc.slug} else {})
  {
    if doc.slug in urls then Outcome(Failure(DuplicateSlug), urls)
    else Outcome(Success(doc), urls[doc.slug := doc.url])
  }

  /**
   * The create handler as a function of the collection: validate, then
   * either take the generated slug (no lookup) or look the supplied one up,
   * then insert the request's own `url` and `slug`. The values the schema
   * trimmed are discarded, so the raw ones are stored.
   */
  function CreateOutcome(urls: map<string, string>, req: Request, generated: GeneratedSlug,
                         isUrl: string -> bool): (o: Outcome)
  {
    var failed := Validate(req, isUrl);
    if failed != {} then Outcome(Failure(ValidationFailed(failed)), urls)
    else if !IsTruthy(req.slug) then InsertOutcome(urls, UrlRecord(req.url.value, generated))
    else if req.slug.value in urls then Outcome(Failure(SlugInUse), urls)
    else InsertOutcome(urls, UrlRecord(req.url.value, req.slug.value))
  }

  /**
   * `POST /url`, step by step as the handler runs: `slug` is reassigned to
   * the generated slug when falsy, the supplied slug is looked up first,
   * and the record is inserted into `store`.
   */
  method PostUrl(store: UrlStore, req: Request, generated: GeneratedSlug, isUrl: string -> bool)
    returns (r: Result<UrlRecord, CreateError>)
    modifies store
    ensures Outcome(r, store.urls) == CreateOutcome(old(store.urls), req, generated, isUrl)
    ensures Validate(req, isUrl) != {} ==>
      r == Failure(ValidationFailed(Validate(req, isUrl))) && store.urls == old(store.urls)
    ensures r.Failure? ==> store.urls == old(store.urls)
    ensures r.Success? ==>
      r.value.slug !in old(store.urls) && store.urls == old(store.urls)[r.value.slug := r.value.url]
  {
    var failed := Validate(req, isUrl);
    if failed != {} {
      return Failure(ValidationFailed(failed));
    }
    var slug: string;
    if !IsTruthy(req.slug) {
      slug := generated;
    } else {
      slug := req.slug.value;
      var existing := store.FindOne(slug);
      if existing.Some? {
        return Failure(SlugInUse);
      }
    }
    var newUrl := UrlRecord(req.url.value, slug);
    r := store.Insert(newUrl);
  }

  // ---------------------------------------------------------------------
  // Properties of the create handler
  // ---------------------------------------------------------------------

  /** A request the schema rejects fails before the collection is touched. */
  lemma InvalidRequestLeavesStore(urls: map<string, string>, req: Request, generated: GeneratedSlug,
                                  isUrl: string -> bool)
    requires Validate(req, isUrl) != {}
    ensures CreateOutcome(urls, req, generated, isUrl) ==
      Outcome(Failure(ValidationFailed(Validate(req, isUrl))), urls)
  {
  }

  /**
   * A supplied slug already in the collection fails with "Slug is in use"
   * and nothing changes: the original mapping is intact.
   */
  lemma SlugInUseLeavesStore(urls: map<string, string>, req: Request, generated: GeneratedSlug,
                             isUrl: string -> bool)
    requires Validate(req, isUrl) == {}
    requires req.slug.Some? && req.slug.value in urls
    ensures CreateOutcome(urls, req, generated, isUrl) == Outcome(Failure(SlugInUse), urls)
  {
    ValidatedSlugFalsyIffAbsent(req, isUrl);
  }

  /**
   * Every success adds exactly one new pair, the request's raw `url` under
   * the raw supplied slug or the generated one, and touches nothing else;
   * every failure leaves the collection as it was.
   */
  lemma CreateFrame(urls: map<string, string>, req: Request, generated: GeneratedSlug,
                    isUrl: string -> bool)
    ensures var o := CreateOutcome(urls, req, generated, isUrl);
      && (o.result.Failure? ==> o.urls == urls)
      && (o.result.Success? ==>
            && Validate(req, isUrl) == {}
            && o.result.value.url == req.url.value
            && o.result.value.slug == (if req.slug.Some? then req.slug.value else generated)
            && o.result.value.slug !in urls
            && o.urls == urls[o.result.value.slug := o.result.value.url])
  {
    if Validate(req, isUrl) == {} {
      ValidatedSlugFalsyIffAbsent(req, isUrl);
      var o := CreateOutcome(urls, req, generated, isUrl);
      if req.slug.None? {
        assert o == InsertOutcome(urls, UrlRecord(req.url.value, generated));
      } else if req.slug.value !in urls {
        assert o == InsertOutcome(urls, UrlRecord(req.url.value, req.slug.value));
      }
    }
  }

  /**
   * A valid request succeeds whenever its slug is free: the supplied slug,
   * or, when none is supplied, the generated one.
   */
  lemma CreateSucceedsOnFreeSlug(urls: map<string, string>, req: Request, generated: GeneratedSlug,
                                 isUrl: string -> bool)
    requires Validate(req, isUrl) == {}
    requires (if req.slug.Some? then req.slug.value else generated) !in urls
    ensures CreateOutcome(urls, req, generated, isUrl).result.Success?
  {
    ValidatedSlugFalsyIffAbsent(req, isUrl);
  }

  /**
   * Without a slug, the generated one is inserted without any lookup; when
   * it collides the unique index refuses it and the handler does not retry.
   */
  lemma GeneratedCollisionFails(urls: map<string, string>, req: Request, generated: GeneratedSlug,
                                isUrl: string -> bool)
    requires Validate(req, isUrl) == {}
    requires req.slug.None? && generated in urls
    ensures CreateOutcome(urls, req, generated, isUrl) == Outcome(Failure(DuplicateSlug), urls)
  {
  }

  /** A valid slug with a space in front still passes the schema. */
  lemma PaddedSlugPasses(t: string, url: string, isUrl: string -> bool)
    requires SlugRule(t) && UrlRule(Trim(url), isUrl)
    ensures Validate(Request(Some(" " + t), Some(url)), isUrl) == {}
  {
    assert Unpadded(t) by {
      assert IsSlugChar(t[0]) && IsSlugChar(t[|t| - 1]);
    }
    TrimLeadingSpace(t);
    SchemaPasses(Request(Some(" " + t), Some(url)), isUrl);
  }

  /**
   * The schema tests trimmed values but the handler stores the raw ones:
   * a valid slug with a space in front is accepted, and it is the padded
   * slug, not the trimmed one, that ends up in the collection.
   */
  lemma PaddedSlugStoredRaw(urls: map<string, string>, t: string, url: string,
                            generated: GeneratedSlug, isUrl: string -> bool)
    requires SlugRule(t) && UrlRule(Trim(url), isUrl)
    requires " " + t !in urls
    ensures " " + t != t
    ensures CreateOutcome(urls, Request(Some(" " + t), Some(url)), generated, isUrl)
      == Outcome(Success(UrlRecord(url, " " + t)), urls[" " + t := url])
  {
    PaddedSlugPasses(t, url, isUrl);
    assert IsTruthy(Some(" " + t));
  }

  // ---------------------------------------------------------------------
  // `GET /:id`
  // ---------------------------------------------------------------------

  /** What the redirect handler answers. */
  datatype Resolution = Redirect(url: string) | NotFound

  /** The HTTP status of a resolution: `res.redirect` sends 302. */
  function ResolutionStatus(r: Resolution): (code: int)
    ensures code == 302 || code == 404
    ensures code == 302 <==> r.Redirect?
  {
    match r
    case Redirect(_) => 302
    case NotFound => 404
  }

  /**
   * The redirect handler as a function of the collection. `lookupFails`
   * stands for `findOne` throwing; the catch answers 404 as well.
   */
  function Resolve(urls: map<string, string>, id: string, lookupFails: bool): (r: Resolution) {
    if lookupFails then NotFound
    else if id in urls then Redirect(urls[id])
    else NotFound
  }

  /** `GET /:id`: look the id up, redirect when found, else 404. */
  method GetSlug(store: UrlStore, id: string, lookupFails: bool) returns (r: Resolution)
    ensures r == Resolve(store.urls, id, lookupFails)
    ensures r.Redirect? <==> !lookupFails && id in store.urls
    ensures r.Redirect? ==> r.url == store.urls[id]
    ensures ResolutionStatus(r) < 500
  {
    if lookupFails {
      return NotFound;
    }
    var doc := store.FindOne(id);
    if doc.Some? {
      return Redirect(doc.value.url);
    }
    return NotFound;
  }

  /** A successful create is followed by a redirect to its url. */
  lemma CreateThenResolve(urls: map<string, string>, req: Request, generated: GeneratedSlug,
                          isUrl: string -> bool)
    requires CreateOutcome(urls, req, generated, isUrl).result.Success?
    ensures var o := CreateOutcome(urls, req, generated, isUrl);
      Resolve(o.urls, o.result.value.slug, false) == Redirect(req.url.value)
  {
    CreateFrame(urls, req, generated, isUrl);
  }

  /**
   * Two creates with the same supplied slug: once the first succeeds, the
   * second fails with "Slug is in use" and the slug still redirects to the
   * first url.
   */
  lemma SecondCreateSameSlug(urls: map<string, string>, first: Request, second: Request,
                             g1: GeneratedSlug, g2: GeneratedSlug, isUrl: string -> bool)
    requires first.slug.Some? && second.slug == first.slug
    requires CreateOutcome(urls, first, g1, isUrl).result.Success?
    requires Validate(second, isUrl) == {}
    ensures var after := CreateOutcome(urls, first, g1, isUrl).urls;
      && CreateOutcome(after, second, g2, isUrl) == Outcome(Failure(SlugInUse), after)
      && Resolve(after, first.slug.value, false) == Redirect(first.url.value)
  {
    CreateFrame(urls, first, g1, isUrl);
    var after := CreateOutcome(urls, first, g1, isUrl).urls;
    SlugInUseLeavesStore(after, second, g2, isUrl);
  }

  // ---------------------------------------------------------------------
  // Sequences of creates
  // ---------------------------------------------------------------------

  /** One create request together with what `nanoid` returned for it. */
  datatype Call = Call(req: Request, generated: GeneratedSlug)

  /** The collection after the create requests `calls`, in order. */
  function Replay(urls: map<string, string>, calls: seq<Call>, isUrl: string -> bool): (final: map<string, string>)
    decreases |calls|
  {
    if calls == [] then urls
    else Replay(CreateOutcome(urls, calls[0].req, calls[0].generated, isUrl).urls, calls[1..], isUrl)
  }

  /** One create keeps every stored pair and adds at most one slug. */
  lemma CreateGrows(urls: map<string, string>, req: Request, generated: GeneratedSlug,
                    isUrl: string -> bool)
    ensures var after := CreateOutcome(urls, req, generated, isUrl).urls;
      && (forall s :: s in urls ==> s in after && after[s] == urls[s])
      && |after| <= |urls| + 1
  {
    var o := CreateOutcome(urls, req, generated, isUrl);
    CreateFrame(urls, req, generated, isUrl);
    if o.result.Success? {
      assert o.urls.Keys == urls.Keys + {o.result.value.slug};
    }
  }

  /**
   * The unique index at work over any sequence of creates: a slug, once
   * stored, keeps its url for good, and each create adds at most one slug.
   */
  lemma {:induction false} ReplayKeepsMappings(urls: map<string, string>, calls: seq<Call>,
                                               isUrl: string -> bool)
    ensures var final := Replay(urls, calls, isUrl);
      && (forall s :: s in urls ==> s in final && final[s] == urls[s])
      && |final| <= |urls| + |calls|
    decreases |calls|
  {
    if calls != [] {
      var after := CreateOutcome(urls, calls[0].req, calls[0].generated, isUrl).urls;
      CreateGrows(urls, calls[0].req, calls[0].generated, isUrl);
      ReplayKeepsMappings(after, calls[1..], isUrl);
    }
  }

  // ---------------------------------------------------------------------
  // The error handler
  // ---------------------------------------------------------------------

  const InUseMessage := "Slug is in use. \U{1F614}"
  /** What replaces the stack trace in production. */
  const HiddenStack := "\U{1F95E}"

  /** A thrown JavaScript error: `status` is absent on most of them. */
  datatype JsError = JsError(status: Option<int>, message: string, stack: string)

  /** The reply of the error handler: its HTTP status and its JSON body. */
  datatype ErrorReply = ErrorReply(status: int, success: bool, message: string, stack: string)

  /** `error.status || 500` (index.ts): a falsy status (absent or 0) gives 500. */
  function ErrorStatus(status: Option<int>): (code: int) {
    if status.Some? && status.value != 0 then status.value else 500
  }

  /** `if (error.status) res.status(error.status) else res.status(500)` (index.js). */
  function ErrorStatusBranching(status: Option<int>): (code: int) {
    match status
    case None => 500
    case Some(n) => if n != 0 then n else 500
  }

  /** The two ways the servers write the status agree on every error. */
  lemma ErrorStatusFormsAgree(status: Option<int>)
    ensures ErrorStatus(status) == ErrorStatusBranching(status)
    ensures ErrorStatus(status) == 500 <==> status.None? || status.value == 0 || status.value == 500
  {
  }

  /** The error handler's reply to `error`. */
  function ErrorBody(error: JsError, production: bool): (reply: ErrorReply)
    ensures !reply.success
    ensures reply.status == ErrorStatusBranching(error.status)
    ensures reply.message == error.message
    ensures reply.stack == if production then HiddenStack else error.stack
  {
    ErrorReply(ErrorStatus(error.status), false, error.message,
               if production then HiddenStack else error.stack)
  }

  /**
   * The error each create failure throws. None of them sets `status`: the
   * schema's validation error, the handler's own `Error` and the store's
   * duplicate-key error. The library messages are the parameter.
   */
  function Thrown(e: CreateError, libraryMessage: string, stack: string): (error: JsError) {
    JsError(None, if e.SlugInUse? then InUseMessage else libraryMessage, stack)
  }

  /**
   * Every create failure, validation included, reaches the client as a 500
   * with `success: false`; an in-use slug carries the handler's message;
   * production hides the stack.
   */
  lemma CreateFailureReply(e: CreateError, libraryMessage: string, stack: string, production: bool)
    ensures var reply := ErrorBody(Thrown(e, libraryMessage, stack), production);
      && reply.status == 500
      && !reply.success
      && (e.SlugInUse? ==> reply.message == InUseMessage)
      && (production ==> reply.stack == HiddenStack)
      && (!production ==> reply.stack == stack)
  {
  }
}
