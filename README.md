# Notepad worker: a Dafny model of its request handler

The system is a minimal web notepad served by a single Cloudflare Worker
(`src/index.js`). Each request names a note by the first segment of its URL
path. The handler does one of four things:

- it redirects a request with no segment to a freshly generated five-character identifier;
- it rejects an identifier outside `[A-Za-z0-9_-]{1,64}` with 400;
- it saves or deletes the note under the key `note:<id>` on POST;
- it reads the note on every other method, as plain text ("raw mode") or as an HTML editor page.

The model has one module per part of the handler:

- `Wrappers`: an `Option` type for JavaScript's `null`/`undefined` and the `x || fallback` idiom.
- `Strings`: JavaScript's `startsWith` and `includes`, and the fact that a prefix test means "the prefix followed by some rest".
- `Paths`: `pathname.split('/').filter(p => p)[0]`, modelled literally (split, filter, first element), with a characterisation of which paths have no segment and which segment a path yields.
- `NoteIds`: the identifier check and the storage key.
- `IdGenerator`: `generateId` as a method with a loop, specified by a function of the five random draws.
- `Html`: `escapeHtml` as the source's chain of five global replacements; a per-character reference definition; an `Unescape` inverse that decodes exactly those five entities; `renderHTML` reduced to its two escaped insertions.
- `Worker`: requests and responses as datatypes, the key-value namespace `env.NOTES` as a class holding a `map<string, string>`, the handler as a method `Fetch` that changes that map, the function `Handle` that specifies it, and the handler's properties as lemmas about `Handle`.

Two facts about the code that are easy to misremember:

- The identifier alphabet `234579abcdefghjkmnpqrstwxyz` has 27 characters.
- Only the 200 responses set `Cache-Control: no-store`. The 302 redirect, the 400 error and the raw-mode 404 set no caching header, and the 404 sets `Content-Type: text/plain`.

## Model

| member | source | states |
|---|---|---|
| `Paths.Split` | src/index.js:9 | `split('/')` always yields at least one part |
| `Paths.NonEmpty` | src/index.js:9 | `filter(p => p)` keeps exactly the non-empty parts of its input and never lengthens the list |
| `Paths.NonEmptyConcat` | src/index.js:9 | the filter keeps the parts in order: filtering a concatenation concatenates the filtered halves |
| `Paths.FirstSegment` | src/index.js:9-10 | the note identifier, when present, is non-empty and holds no `/` |
| `Paths.JoinSplit` | src/index.js:9 | joining the parts of a split with the separator gives back the path (nothing is lost) |
| `Paths.SplitHasNoSeparator` | src/index.js:9 | no part of a split contains the separator |
| `Paths.FirstSegmentStep` | src/index.js:9-10 | a leading `/` does not change the first segment; a leading other character starts it |
| `Paths.NoSegmentIffOnlySlashes` | src/index.js:9-13 | the identifier is absent exactly when the path is empty or all slashes |
| `Paths.FirstSegmentOf` | src/index.js:9-10 | for any leading slashes, a slash-free segment, and then the end or a `/`, the identifier is that segment |
| `NoteIds.ValidId` | src/index.js:19 | an accepted identifier has 1 to 64 characters and no `/`; any character outside `[A-Za-z0-9_-]` rejects it |
| `NoteIds.EncodedSlashRejected` | src/index.js:19 | the undecoded segment `a%2Fb` is rejected |
| `NoteIds.KeyFor` | src/index.js:23 | the key is `note:` followed by the identifier, and the identifier can be read back from it |
| `NoteIds.KeyForInjective` | src/index.js:23 | distinct identifiers have distinct keys |
| `NoteIds.ValidIdCharacters` | src/index.js:19 | an accepted identifier has 1 to 64 characters and no `/`, `&`, `<`, `>`, `"` or `'` |
| `NoteIds.TooLongRejected` | src/index.js:19-21 | 65 characters of the class match the pattern but are rejected |
| `NoteIds.SpaceRejected` | src/index.js:19-21 | `abc def` is rejected |
| `NoteIds.BoundaryLengthsAccepted` | src/index.js:19 | any 1 to 64 characters of the class are accepted |
| `IdGenerator.GenerateId` | src/index.js:86-93 | the loop builds, one character per step, the identifier of the five draws |
| `IdGenerator.GeneratedIdShape` | src/index.js:87-92 | a generated identifier has exactly 5 characters, all from the alphabet, none of `0168ilouv`, and passes the identifier check |
| `Html.ReplaceAll` | src/index.js:100 | a global one-character replacement leaves text without that character unchanged, and removes the character when the replacement lacks it |
| `Html.ReplaceAllKeepsAbsent` | src/index.js:100-104 | a replacement introduces no character that is in neither the text nor the replacement |
| `Html.ReplaceAllConcat` | src/index.js:100-104 | a global replacement distributes over concatenation |
| `Html.EscapeHtml` | src/index.js:98-105 | the escaped text contains no `<`, `>`, `"` or `'` |
| `Html.EscapeHtmlConcat` | src/index.js:98-105 | escaping distributes over concatenation |
| `Html.EscapeHtmlChar` | src/index.js:98-105 | on a single character the chain gives exactly that character's entity, so no entity is escaped twice |
| `Html.EscapeHtmlIsPerChar` | src/index.js:98-105 | the five sequential replacements equal the per-character mapping |
| `Html.PlainTextUnchanged` | src/index.js:98-105 | text without the five special characters passes through unchanged |
| `Html.UnescapeEscapeHtml` | src/index.js:98-105 | decoding the escaped text gives back the text, so escaping is lossless and injective |
| `Html.RenderHtml` | src/index.js:110-117 | the title (line 117) and text-area (line 198) insertions contain no `<`, and unescaping them gives back the identifier and the content |
| `Worker.PostedText` | src/index.js:27-35 | the saved text is empty exactly when the form's `text` field is missing or empty (form-encoded body) or the body is empty (any other body); non-empty text is exactly the field for a form-encoded body and exactly the body otherwise, untrimmed |
| `Worker.IsRaw` | src/index.js:49-52 | raw mode holds exactly when the `raw` parameter is present or the `User-Agent` is `curl` or `Wget` followed by any rest; a missing header never selects it |
| `Worker.RawTestIsCaseSensitivePrefix` | src/index.js:50-52 | the user-agent test is a case-sensitive prefix test: `xcurl` and `Curl/7` do not select raw mode |
| `Strings.StartsWithIff` | src/index.js:51-52 | `startsWith(p)` holds exactly when the string is `p` followed by some rest |
| `Worker.Handle` | src/index.js:7-80 | the status is 200, 302, 400 or 404; only a POST to a valid identifier can change the store; a 404 comes only from a raw-mode read |
| `Worker.KvNamespace.constructor` | src/index.js:7 | the namespace starts with the given entries |
| `Worker.KvNamespace.Get` | src/index.js:54 | `get` returns the stored text for a present key and `null` for a missing one |
| `Worker.KvNamespace.Put` | src/index.js:40 | `put` maps the key to the value and keeps every other entry |
| `Worker.KvNamespace.Delete` | src/index.js:38 | `delete` removes the key and keeps every other entry |
| `Worker.Fetch` | src/index.js:7-80 | the handler's response and the store it leaves are those of `Handle` on the old store |
| `Worker.NoSegmentRedirects` | src/index.js:13-16 | with no identifier, the response is 302 to `<origin>/<id>` for a generated id that passes validation and that the redirected path yields again; the store is unchanged |
| `Worker.InvalidIdRejected` | src/index.js:19-21 | a rejected identifier gets 400 "Invalid note ID" with no headers set by the handler, whatever the method; the store is unchanged |
| `Worker.TooLongPathRejected` | src/index.js:19-21 | the path `/` followed by 65 identifier characters gets 400; the store is unchanged |
| `Worker.PostWritesOnlyItsKey` | src/index.js:23-45 | POST answers 200 "OK" whose only header set by the handler is `Cache-Control: no-store`; empty text deletes `note:<id>`, other text maps it to exactly that text; every other key is unchanged |
| `Worker.MissingFormFieldDeletes` | src/index.js:27-38 | a POST whose `Content-Type` contains the form type and that has no `text` field deletes the note |
| `Worker.EditorHeaderIsForm` | src/index.js:30-32 | the header `application/x-www-form-urlencoded; charset=UTF-8`, which the editor page's script sends, selects the form field |
| `Worker.EncodedSlashPathRejected` | src/index.js:8-21 | the path `/a%2Fb` is not decoded into `/a/b`: it names the segment `a%2Fb` and gets 400 with the store unchanged |
| `Worker.OtherMethodsOnlyRead` | src/index.js:26-79 | any method other than POST leaves the store unchanged |
| `Worker.RawRead` | src/index.js:49-70 | in raw mode a missing note gives 404 "Not Found"; a present note gives 200 text/plain, no-store, whose body is exactly the stored text |
| `Worker.EditorRead` | src/index.js:72-79 | outside raw mode the page's title is the identifier, and unescaping its text-area insertion gives the stored text, or nothing for a missing note |
| `Worker.CurlGetsPlainText` | src/index.js:49-69 | a read with `User-Agent: curl/7.64.1` and no `raw` parameter is served as text/plain, whether the note exists (200) or not (404) |
| `Worker.SaveThenRawRead` | src/index.js:37-69 | after a POST, a raw read of the same note returns exactly the posted text, or 404 when it was empty |
| `Worker.SaveThenEditorRead` | src/index.js:37-73 | after a POST, unescaping the editor page's text-area insertion gives exactly the posted text |
| `Worker.SaveIsolation` | src/index.js:23-79 | a POST never changes the response to a request whose note identifier (first path segment) differs; `/abc/x` names the same note as `/abc` |
| `Worker.SaveIdempotent` | src/index.js:37-41 | repeating a POST gives the same response and store as doing it once |
| `Worker.HandlePreservesWellFormed` | src/index.js:19-41 | if every stored entry is a non-empty note under a valid identifier's key, this stays true after any request |

## Left out

- URL parsing, `request.formData()`, `request.text()` and the construction of `Response` objects are platform services. The request arrives as fields: `pathname` is `url.pathname` as the URL parser leaves it, still percent-encoded (the handler never decodes it); the form's `text` field is as the form parser decodes it; the rest are the `raw` parameter's presence, the two headers and the body. The response is a datatype of status, headers and body.
- Response headers: the `headers` map holds only the headers the handler passes. The platform adds `Content-Type: text/plain;charset=UTF-8` to a string body that has none, which covers the 400 response and the POST's `OK`. That default is not modelled.
- A failing `request.formData()` is not modelled. When the `Content-Type` contains the form type but is some other MIME type (e.g. `text/plain; x=application/x-www-form-urlencoded`), the platform's form parser rejects and the handler throws an uncaught exception. The model instead reads the `text` field and answers 200, so `Worker.Handle`'s status set does not include that failure.
- The key-value namespace is an external asynchronous service. It is modelled as a map. Its durability, eventual consistency, last-write-wins races between concurrent requests and errors (which the handler does not handle) are not modelled.
- `Math.random` is replaced by five caller-supplied indices in [0, 27), one per character; `Worker.Fetch` and `Worker.Handle` take them whether or not a redirect happens.
- The constant HTML, CSS and client-side script of `renderHTML` (lines 111-295, apart from the two insertions) are not modelled. That includes the browser's auto-save loop, which is driven by timers and the network. The page is a datatype holding the two inserted strings.
- Strings are sequences of characters; JavaScript's UTF-16 `.length` is not modelled. For identifiers this makes no difference, because every accepted character is ASCII.
- Header names are map keys spelled as in the source; the case-insensitivity of HTTP header names is not modelled.
- Html.RenderHtml, Worker.EditorRead and Worker.SaveThenEditorRead: what a browser shows in the text area is not modelled. An HTML parser drops a single line feed right after the `<textarea>` start tag and turns CR and CRLF into LF. So a note that starts with a line feed, or that holds a CR, is not shown exactly as stored, and the page's auto-save then writes back the changed text. These members state only that unescaping the inserted string gives back the content.
- `Html.Unescape` decodes only the five entities that `escapeHtml` produces. It is not a general HTML character-reference decoder.
