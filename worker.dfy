/**
 * The `fetch` handler of the worker (src/index.js, lines 7-80): one request,
 * one response, and at most one write to the note store.
 */
module Worker {
  import opened Wrappers
  import opened Paths
  import opened NoteIds
  import opened IdGenerator
  import opened Html
  import opened Strings

  /** What the handler reads from an incoming request: the URL's origin, its
      `pathname` as the URL parser leaves it (still percent-encoded), whether the
      query string has a `raw` parameter, the `User-Agent` and `Content-Type`
      headers, the `text` field of a form-encoded body as the form parser decodes
      it, and the body as text. */
  datatype Request = Request(
    httpMethod: string,
    origin: string,
    pathname: string,
    hasRawParam: bool,
    userAgent: Option<string>,
    contentType: Option<string>,
    formText: Option<string>,
    body: string)

  datatype Body = NoBody | Text(text: string) | Page(page: NotePage)

  datatype Response = Response(status: nat, headers: map<string, string>, body: Body)

  /** The response and the store after the request. */
  datatype Outcome = Outcome(response: Response, store: map<string, string>)

  const FormContentType: string := "application/x-www-form-urlencoded"

  /** `Response.redirect(location, 302)` (line 15). */
  function Redirect(location: string): Response {
    Response(302, map["Location" := location], NoBody)
  }

  /** Line 20: no headers are set. */
  const InvalidIdResponse: Response := Response(400, map[], Text("Invalid note ID"))

  /** Lines 43-45. */
  const SavedResponse: Response := Response(200, map["Cache-Control" := "no-store"], Text("OK"))

  /** Lines 59-62: this response does not disable caching. */
  const NotFoundResponse: Response := Response(404, map["Content-Type" := "text/plain"], Text("Not Found"))

  /** Lines 64-69. */
  function RawResponse(content: string): Response {
    Response(200, map["Content-Type" := "text/plain", "Cache-Control" := "no-store"], Text(content))
  }

  /** Lines 73-79. */
  function EditorResponse(noteId: string, content: string): Response {
    Response(200, map["Content-Type" := "text/html; charset=utf-8", "Cache-Control" := "no-store"],
             Page(RenderHtml(noteId, content)))
  }

  /** The text a POST saves (lines 27-35): the form's `text` field, or the empty
      string when the field is missing, for a form-encoded body; the whole body
      otherwise. A missing `Content-Type` header counts as the empty string. */
  function PostedText(req: Request): (text: string)
    ensures text == "" <==>
      if Contains(req.contentType.GetOr(""), FormContentType)
      then req.formText.None? || req.formText.value == ""
      else req.body == ""
    ensures text != "" ==>
      if Contains(req.contentType.GetOr(""), FormContentType) then req.formText == Some(text)
      else text == req.body
  {
    if Contains(req.contentType.GetOr(""), FormContentType) then req.formText.GetOr("")
    else req.body
  }

  /** Raw mode (lines 49-52): a `raw` query parameter, or a `User-Agent` that
      is `curl` or `Wget` followed by anything; a missing header never selects it. */
  predicate IsRaw(req: Request): (raw: bool)
    ensures raw <==> (req.hasRawParam ||
                      exists rest :: req.userAgent == Some("curl" + rest) || req.userAgent == Some("Wget" + rest))
  {
    var userAgent := req.userAgent.GetOr("");
    StartsWithIff(userAgent, "curl");
    StartsWithIff(userAgent, "Wget");
    assert !StartsWith("", "curl") && !StartsWith("", "Wget");
    req.hasRawParam || StartsWith(userAgent, "curl") || StartsWith(userAgent, "Wget")
  }

  /** The handler as a function of the request and the store before it; `picks`
      stands for the five random draws of `generateId`. */
  function Handle(req: Request, store: map<string, string>, picks: seq<nat>): (out: Outcome)
    requires ValidPicks(picks)
    ensures out.response.status in {200, 302, 400, 404}
    ensures out.store != store ==>
      req.httpMethod == "POST" && FirstSegment(req.pathname).Some? && ValidId(FirstSegment(req.pathname).value)
    ensures out.response.status == 404 ==> req.httpMethod != "POST" && IsRaw(req)
  {
    match FirstSegment(req.pathname)
    case None => Outcome(Redirect(req.origin + "/" + IdFromPicks(picks)), store)
    case Some(noteId) =>
      if !ValidId(noteId) then Outcome(InvalidIdResponse, store)
      else
        var key := KeyFor(noteId);
        if req.httpMethod == "POST" then
          var text := PostedText(req);
          Outcome(SavedResponse, if |text| == 0 then store - {key} else store[key := text])
        else if IsRaw(req) then
          Outcome(if key in store then RawResponse(store[key]) else NotFoundResponse, store)
        else
          Outcome(EditorResponse(noteId, if key in store then store[key] else ""), store)
  }

  /** The KV namespace bound as `env.NOTES`: a map from keys to text. */
  class KvNamespace {
    var entries: map<string, string>

    constructor (initial: map<string, string>)
      ensures entries == initial
    {
      entries := initial;
    }

    /** `get(key)`: the stored text, or `null` for a missing key. */
    function Get(key: string): (value: Option<string>)
      reads this
      ensures value.Some? <==> key in entries
      ensures value.Some? ==> value.value == entries[key]
    {
      if key in entries then Some(entries[key]) else None
    }

    /** `put(key, value)`: insert or overwrite; every other key is kept. */
    method Put(key: string, value: string)
      modifies this
      ensures entries == old(entries)[key := value]
    {
      entries := entries[key := value];
    }

    /** `delete(key)`: remove the key if present; every other key is kept. */
    method Delete(key: string)
      modifies this
      ensures entries == old(entries) - {key}
    {
      entries := entries - {key};
    }
  }

  /** The handler, statement by statement: the response it returns and the
      store it leaves are those of Handle. */
  method Fetch(req: Request, env: KvNamespace, picks: seq<nat>) returns (response: Response)
    requires ValidPicks(picks)
    modifies env
    ensures Outcome(response, env.entries) == Handle(req, old(env.entries), picks)
  {
    var noteId := FirstSegment(req.pathname);
    if noteId.None? {
      var newId := GenerateId(picks);
      return Redirect(req.origin + "/" + newId);
    }
    if !ValidId(noteId.value) {
      return InvalidIdResponse;
    }
    var key := KeyFor(noteId.value);
    if req.httpMethod == "POST" {
      var text := PostedText(req);
      if |text| == 0 {
        env.Delete(key);
      } else {
        env.Put(key, text);
      }
      return SavedResponse;
    }
    var raw := IsRaw(req);
    var content := env.Get(key);
    if raw {
      if content.None? {
        return NotFoundResponse;
      }
      return RawResponse(content.value);
    }
    return EditorResponse(noteId.value, content.GetOr(""));
  }

  // ---------------------------------------------------------------------------
  // Properties of the handler

  /** A path without a segment redirects to `<origin>/<id>` for a fresh
      five-character id; following the redirect names exactly that note, which
      passes validation. The store is untouched. */
  lemma NoSegmentRedirects(req: Request, store: map<string, string>, picks: seq<nat>)
    requires ValidPicks(picks)
    requires forall i :: 0 <= i < |req.pathname| ==> req.pathname[i] == '/'
    ensures var out := Handle(req, store, picks);
      var id := IdFromPicks(picks);
      && out.store == store
      && out.response.status == 302
      && out.response.headers == map["Location" := req.origin + "/" + id]
      && |id| == IdLength && ValidId(id)
      && FirstSegment("/" + id) == Some(id)
  {
    NoSegmentIffOnlySlashes(req.pathname);
    var id := IdFromPicks(picks);
    GeneratedIdShape(picks);
    ValidIdCharacters(id);
    FirstSegmentOf("/", id, "");
    assert "/" + id + "" == "/" + id;
  }

  /** An identifier that fails the check gets 400 "Invalid note ID", whatever
      the method, and the store is untouched. */
  lemma InvalidIdRejected(req: Request, store: map<string, string>, picks: seq<nat>)
    requires ValidPicks(picks)
    requires FirstSegment(req.pathname).Some? && !ValidId(FirstSegment(req.pathname).value)
    ensures Handle(req, store, picks) == Outcome(Response(400, map[], Text("Invalid note ID")), store)
  {
  }

  /** `/<65 identifier characters>` is rejected. */
  lemma TooLongPathRejected(req: Request, store: map<string, string>, picks: seq<nat>, id: string)
    requires ValidPicks(picks)
    requires req.pathname == "/" + id
    requires |id| == MaxIdLength + 1 && forall i :: 0 <= i < |id| ==> IsIdChar(id[i])
    ensures Handle(req, store, picks) == Outcome(InvalidIdResponse, store)
  {
    assert id != "" && '/' !in id by {
      assert IsIdChar(id[0]);
      forall i | 0 <= i < |id| ensures id[i] != '/' { assert IsIdChar(id[i]); }
    }
    FirstSegmentOf("/", id, "");
    assert "/" + id + "" == "/" + id;
  }

  /** A POST to a valid identifier answers 200 "OK" with caching disabled; empty
      text removes the note's key, other text maps the key to exactly that text,
      and every other key keeps its value. */
  lemma PostWritesOnlyItsKey(req: Request, store: map<string, string>, picks: seq<nat>, id: string)
    requires ValidPicks(picks)
    requires FirstSegment(req.pathname) == Some(id) && ValidId(id)
    requires req.httpMethod == "POST"
    ensures var out := Handle(req, store, picks);
      && out.response == Response(200, map["Cache-Control" := "no-store"], Text("OK"))
      && (PostedText(req) == "" ==> "note:" + id !in out.store)
      && (PostedText(req) != "" ==> "note:" + id in out.store && out.store["note:" + id] == PostedText(req))
      && (forall k :: k != "note:" + id ==> (k in out.store <==> k in store))
      && (forall k :: k != "note:" + id && k in store ==> out.store[k] == store[k])
  {
  }

  /** A form-encoded POST without a `text` field deletes the note, whatever
      else the `Content-Type` header carries around the form type. */
  lemma MissingFormFieldDeletes(req: Request, store: map<string, string>, picks: seq<nat>, id: string)
    requires ValidPicks(picks)
    requires FirstSegment(req.pathname) == Some(id) && ValidId(id)
    requires req.httpMethod == "POST"
    requires Contains(req.contentType.GetOr(""), FormContentType) && req.formText == None
    ensures Handle(req, store, picks).store == store - {"note:" + id}
  {
  }

  /** The header the editor page's own script sends (lines 220 and 274) selects
      the form field, not the raw body. */
  lemma {:induction false} EditorHeaderIsForm(req: Request)
    requires req.contentType == Some("application/x-www-form-urlencoded; charset=UTF-8")
    ensures PostedText(req) == req.formText.GetOr("")
  {
    assert StartsWith("application/x-www-form-urlencoded; charset=UTF-8", FormContentType);
  }

  /** The path is split before any percent-decoding: `/a%2Fb` names the
      segment `a%2Fb`, which is rejected, not the note `a`. */
  lemma EncodedSlashPathRejected(req: Request, store: map<string, string>, picks: seq<nat>)
    requires ValidPicks(picks)
    requires req.pathname == "/a%2Fb"
    ensures Handle(req, store, picks) == Outcome(InvalidIdResponse, store)
  {
    FirstSegmentOf("/", "a%2Fb", "");
    assert "/" + "a%2Fb" + "" == "/a%2Fb";
    EncodedSlashRejected();
  }

  /** Every method other than POST reads: the store is never modified. */
  lemma OtherMethodsOnlyRead(req: Request, store: map<string, string>, picks: seq<nat>)
    requires ValidPicks(picks)
    requires req.httpMethod != "POST"
    ensures Handle(req, store, picks).store == store
  {
  }

  /** A read in raw mode answers 404 "Not Found" for a missing note and 200
      text/plain whose body is exactly the stored text otherwise. */
  lemma RawRead(req: Request, store: map<string, string>, picks: seq<nat>, id: string)
    requires ValidPicks(picks)
    requires FirstSegment(req.pathname) == Some(id) && ValidId(id)
    requires req.httpMethod != "POST" && IsRaw(req)
    ensures var r := Handle(req, store, picks).response;
      && ("note:" + id !in store ==> r.status == 404 && r.body == Text("Not Found"))
      && ("note:" + id in store ==>
            r.status == 200 && r.body == Text(store["note:" + id])
            && r.headers["Content-Type"] == "text/plain" && r.headers["Cache-Control"] == "no-store")
  {
  }

  /** A read outside raw mode renders the editor page: the title is the
      identifier as it is, and unescaping the text area's insertion gives back the
      stored text, or nothing for a missing note. */
  lemma EditorRead(req: Request, store: map<string, string>, picks: seq<nat>, id: string)
    requires ValidPicks(picks)
    requires FirstSegment(req.pathname) == Some(id) && ValidId(id)
    requires req.httpMethod != "POST" && !IsRaw(req)
    ensures var r := Handle(req, store, picks).response;
      && r.status == 200 && r.body.Page?
      && r.body.page.title == id
      && Unescape(r.body.page.editor) == (if "note:" + id in store then store["note:" + id] else "")
  {
    ValidIdCharacters(id);
    PlainTextUnchanged(id);
  }

  /** A command-line client is served plain text without asking for it, whether
      or not the note exists. */
  lemma CurlGetsPlainText(req: Request, store: map<string, string>, picks: seq<nat>, id: string)
    requires ValidPicks(picks)
    requires FirstSegment(req.pathname) == Some(id) && ValidId(id)
    requires req.httpMethod != "POST" && !req.hasRawParam && req.userAgent == Some("curl/7.64.1")
    ensures Handle(req, store, picks).response.headers["Content-Type"] == "text/plain"
  {
    assert StartsWith("curl/7.64.1", "curl");
  }

  /** The raw-mode test is a case-sensitive prefix test, not a substring test:
      `xcurl` and `Curl/7` do not select raw mode. */
  lemma RawTestIsCaseSensitivePrefix(req: Request)
    requires !req.hasRawParam
    requires req.userAgent == Some("xcurl") || req.userAgent == Some("Curl/7")
    ensures !IsRaw(req)
  {
    var ua := req.userAgent.value;
    assert ua[..4] != "curl" by { assert ua[..4][0] != "curl"[0]; }
    assert |ua| >= 4 && ua[..4] != "Wget" by { assert ua[..4][0] != "Wget"[0]; }
  }

  /** Round trip: after a POST of text to a note, a raw read of that note
      returns exactly that text, or 404 when the text was empty. */
  lemma SaveThenRawRead(post: Request, get: Request, store: map<string, string>, picks: seq<nat>, id: string)
    requires ValidPicks(picks)
    requires FirstSegment(post.pathname) == Some(id) && FirstSegment(get.pathname) == Some(id) && ValidId(id)
    requires post.httpMethod == "POST" && get.httpMethod != "POST" && IsRaw(get)
    ensures var after := Handle(post, store, picks).store;
      Handle(get, after, picks).response ==
        if PostedText(post) == "" then NotFoundResponse else RawResponse(PostedText(post))
  {
  }

  /** Round trip through the editor page: after a POST, unescaping the text
      area's insertion gives back exactly the saved text (nothing for empty text). */
  lemma SaveThenEditorRead(post: Request, get: Request, store: map<string, string>, picks: seq<nat>, id: string)
    requires ValidPicks(picks)
    requires FirstSegment(post.pathname) == Some(id) && FirstSegment(get.pathname) == Some(id) && ValidId(id)
    requires post.httpMethod == "POST" && get.httpMethod != "POST" && !IsRaw(get)
    ensures var after := Handle(post, store, picks).store;
      var r := Handle(get, after, picks).response;
      r.body.Page? && Unescape(r.body.page.editor) == PostedText(post)
  {
  }

  /** Saving one note never changes what a read of another note returns. */
  lemma SaveIsolation(post: Request, get: Request, store: map<string, string>, picks: seq<nat>)
    requires ValidPicks(picks)
    requires post.httpMethod == "POST"
    requires FirstSegment(post.pathname) != FirstSegment(get.pathname)
    ensures var after := Handle(post, store, picks).store;
      Handle(get, after, picks).response == Handle(get, store, picks).response
  {
    var after := Handle(post, store, picks).store;
    match FirstSegment(get.pathname)
    case None =>
    case Some(id) =>
      if FirstSegment(post.pathname).Some? && ValidId(FirstSegment(post.pathname).value) {
        var other := FirstSegment(post.pathname).value;
        if KeyFor(id) == KeyFor(other) {
          KeyForInjective(id, other);
        }
        assert KeyFor(id) in after <==> KeyFor(id) in store;
      }
  }

  /** Saving the same request twice leaves the same store as saving it once:
      creating and updating a note are the same operation. */
  lemma SaveIdempotent(post: Request, store: map<string, string>, picks: seq<nat>)
    requires ValidPicks(picks)
    requires post.httpMethod == "POST"
    ensures var once := Handle(post, store, picks);
      Handle(post, once.store, picks) == once
  {
  }

  /** A store whose every entry is a non-empty note under a valid identifier's key. */
  ghost predicate WellFormedStore(store: map<string, string>) {
    forall k :: k in store ==> store[k] != "" && exists id :: ValidId(id) && k == KeyFor(id)
  }

  /** The handler keeps the store well formed: it writes only keys of valid
      identifiers and never stores an empty note. */
  lemma HandlePreservesWellFormed(req: Request, store: map<string, string>, picks: seq<nat>)
    requires ValidPicks(picks)
    requires WellFormedStore(store)
    ensures WellFormedStore(Handle(req, store, picks).store)
  {
    var after := Handle(req, store, picks).store;
    forall k | k in after ensures after[k] != "" && exists id :: ValidId(id) && k == KeyFor(id) {
      if k !in store {
        var id := FirstSegment(req.pathname).value;
        assert ValidId(id) && k == KeyFor(id);
      }
    }
  }
}
