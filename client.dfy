/**
 * The browser form (public/js/app.js): the component data `url`, `slug`,
 * `error`, `formVisible`, `created` and `loc`, the `checkForm` guard and
 * `createUrl`, which normalises the url, posts it and turns the server's
 * reply into new form state.
 */
module Client {
  import opened Wrappers
  import opened JsStrings

  const UrlRequiredMessage := "URL required."
  const TooManyRequestsMessage := "You are sending too many requests. Try again in 30 seconds."
  const HttpScheme := "http://"
  const HttpsScheme := "https://"
  /** The status the rate limiter answers with. */
  const TooManyRequests := 429

  /**
   * The scheme rule of `createUrl`: `http://` goes in front unless the url
   * already contains `https://` or `http://` somewhere (a substring test,
   * not a prefix test).
   */
  function Normalize(url: string): (r: string) {
    if !Includes(url, HttpsScheme) && !Includes(url, HttpScheme) then HttpScheme + url else url
  }

  /**
   * Normalisation prefixes `http://` exactly when neither scheme occurs at
   * any position of the url, and otherwise sends the url as typed.
   */
  lemma NormalizeSpec(url: string)
    ensures Normalize(url) == HttpScheme + url <==>
      forall i :: !OccursAt(url, HttpsScheme, i) && !OccursAt(url, HttpScheme, i)
    ensures Normalize(url) != HttpScheme + url ==> Normalize(url) == url
  {
    if Normalize(url) == url {
      assert |HttpScheme + url| != |url|;
    }
  }

  /** Every normalised url contains `http://` or `https://`. */
  lemma NormalizeHasScheme(url: string)
    ensures Includes(Normalize(url), HttpScheme) || Includes(Normalize(url), HttpsScheme)
  {
    if !Includes(url, HttpsScheme) && !Includes(url, HttpScheme) {
      IncludesPrefix(HttpScheme, url);
    }
  }

  /** Hence normalising twice is normalising once. */
  lemma NormalizeIdempotent(url: string)
    ensures Normalize(Normalize(url)) == Normalize(url)
  {
    NormalizeHasScheme(url);
  }

  /**
   * Because the test is for a substring, a url whose query carries a
   * scheme is sent unchanged, without a scheme of its own.
   */
  lemma NormalizeKeepsEmbeddedScheme(host: string, target: string)
    ensures Normalize(host + "/?to=" + HttpsScheme + target) == host + "/?to=" + HttpsScheme + target
  {
    var u := host + "/?to=" + HttpsScheme + target;
    assert OccursAt(u, HttpsScheme, |host| + 5);
  }

  /** `this.slug || undefined`: an empty slug is left out of the request. */
  function SlugParam(slug: string): (p: Option<string>)
    ensures p.None? <==> slug == ""
    ensures p.Some? ==> p.value == slug
  {
    if slug == "" then None else Some(slug)
  }

  /** The JSON body `createUrl` posts to `/url`. */
  datatype RequestBody = RequestBody(url: string, slug: Option<string>)

  /**
   * The server's reply as `createUrl` reads it: the status, the `slug` of a
   * created record and the `message` of an error body.
   */
  datatype Reply = Reply(status: int, slug: string, message: string) {
    /** `response.ok`. */
    predicate Ok() {
      200 <= status <= 299
    }
  }

  /** The Vue component's data and its two methods. */
  class Form {
    var url: string
    var slug: string
    var error: string
    var formVisible: bool
    var created: Option<string>
    /** `location.origin`, fixed for the page's life. */
    const loc: string

    /** The form is shown exactly until a link has been created. */
    ghost predicate Valid()
      reads this
    {
      formVisible <==> created.None?
    }

    /** The initial data: empty fields, the form shown, nothing created. */
    constructor (origin: string)
      ensures Valid()
      ensures url == "" && slug == "" && error == ""
      ensures formVisible && created == None && loc == origin
    {
      url, slug, error := "", "", "";
      formVisible, created := true, None;
      loc := origin;
    }

    /** `checkForm`: the only client-side check is that a url was typed. */
    method CheckForm() returns (ok: bool)
      modifies this`error
      ensures ok <==> url != ""
      ensures error == if ok then "" else UrlRequiredMessage
    {
      error := "";
      if url == "" {
        error := UrlRequiredMessage;
        return false;
      }
      return true;
    }

    /**
     * `createUrl`, for the server's answer `reply`. Returns the body that
     * was posted, or `None` when `checkForm` stopped the request. Only
     * `error`, `formVisible` and `created` change, and the form stays shown
     * until a link is created.
     */
    method CreateUrl(reply: Reply) returns (sent: Option<RequestBody>)
      requires Valid()
      modifies this`error, this`formVisible, this`created
      ensures Valid()
      ensures sent.None? <==> url == ""
      ensures sent.None? ==>
        error == UrlRequiredMessage && formVisible == old(formVisible) && created == old(created)
      ensures sent.Some? ==> sent.value == RequestBody(Normalize(url), SlugParam(slug))
      ensures sent.Some? && reply.Ok() ==>
        !formVisible && created == Some(loc + "/" + reply.slug) && error == ""
      ensures sent.Some? && !reply.Ok() ==>
        formVisible == old(formVisible) && created == old(created)
        && error == (if reply.status == TooManyRequests then TooManyRequestsMessage else reply.message)
    {
      error := "";
      var ok := CheckForm();
      if !ok {
        return None;
      }
      var target := url;
      if !Includes(target, HttpsScheme) && !Includes(target, HttpScheme) {
        target := HttpScheme + url;
      }
      sent := Some(RequestBody(target, SlugParam(slug)));
      if reply.Ok() {
        formVisible := false;
        created := Some(loc + "/" + reply.slug);
      } else if reply.status == TooManyRequests {
        error := TooManyRequestsMessage;
      } else {
        error := reply.message;
      }
    }
  }
}
