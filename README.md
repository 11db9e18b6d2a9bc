# Admin dashboard of the content management site, in Dafny

This project models the administrator dashboard of a small content
management site: the React component `src/pages/admin/AdminDashboard.js`.
From it an operator logs in and edits the site's content sections and
theme through a draft overlay, then saves them. The operator also manages
news articles (including an image upload), answers or deletes visitor
questions, and manages a list of YouTube video entries.

The component keeps its state in hooks and its logic in event handlers.
Here it is one class, `Dashboard.AdminDashboard`: its fields are the state
and its methods are the handlers. Each handler runs to completion before
the next one starts. The pure logic the handlers use is in separate
modules of functions and lemmas:

- `Text`: the JavaScript string operations the component relies on.
  These are `trim` with the full ECMAScript whitespace set, `includes`,
  `split` on one character, the decimal prefix `parseInt` reads, and the
  canonical array-index form that an assignment `arr[k] = v` uses.
- `YouTube`: how the video handlers turn the typed reference into the
  eleven-character ID they store. The reference can be a bare ID, a
  `youtu.be` short link or a `youtube.com/watch?v=` link. The URL parser
  (`new URL`) is a parameter: a function from the text to its hostname,
  path and query map, or to "unparseable".
- `ContentTree`: the content as a JSON-like value tree, and the
  dotted-path write of `handleInputChange`. The write is a recursive
  specification (`SetPath`), and the method `WritePath` carries out the
  handler's loop step by step.
- `Drafts`: the overlay. A read takes the draft when there is one and the
  synchronised value otherwise. An edit starts the draft from a copy of
  the synchronised section. This module also holds the theme-draft edits.
- `Collections`: the record types, the Q&A status filter and the badge
  counts.
- `Faq`: the FAQ editor's new id (largest id plus one), its append and
  its delete by position.
- `Validation`: the checks made before any call to the service.
- `Dashboard`: the class.

**The remote service.** Every call the dashboard makes is appended to the
field `sent`, so a contract can say that no call was made, or exactly
what a call carried. The service's reply is an input of the handler, of
type `Outcomes.Response`. It is Accepted (the reply reported success, with
its payload), Declined (a reply without success, with its message) or
Thrown (the request or its decoding raised an error).

**The browser.** The session-storage flag is the field `storedAuth`. The
answer to a confirmation dialog is a boolean parameter.

**Three behaviours of the code worth knowing:**

- Logout awaits the service call outside any `try`. When that call
  throws, the handler stops and the dashboard stays logged in. Logout is
  not unconditional.
- Deleting a news article asks for no confirmation. Only questions and
  videos are confirmed.
- The news handlers and `loadNews` have no `try`. A thrown error leaves
  every piece of state as it was, apart from the request already sent.

## Model

| member | source | states |
|---|---|---|
| `Text.TrimStartCuts` | src/pages/admin/AdminDashboard.js:83 | trimming the start removes a prefix made only of whitespace and stops at the first other character |
| `Text.TrimEndCuts` | src/pages/admin/AdminDashboard.js:83 | trimming the end removes a suffix made only of whitespace and stops at the last other character |
| `Text.TrimIsInfix` | src/pages/admin/AdminDashboard.js:83 | `trim` yields an infix of the input, with only whitespace cut away on either side and no whitespace left at either end |
| `Text.TrimBlankIffAllSpace` | src/pages/admin/AdminDashboard.js:83 | a string trims to empty exactly when every character of it is whitespace |
| `Text.Split` | src/pages/admin/AdminDashboard.js:409 | `split` gives at least one piece, no piece holds the separator, and the first piece is the text up to the first separator |
| `Text.JoinSplit` | src/pages/admin/AdminDashboard.js:409 | splitting loses nothing: joining the pieces with the separator gives the original string back |
| `Text.DigitPrefix` | src/pages/admin/AdminDashboard.js:412 | the digits `parseInt` reads are the longest run of decimal digits at the start of the text |
| `Text.CanonicalIndexParses` | src/pages/admin/AdminDashboard.js:412-415 | a key that an assignment treats as an array index is read by `parseInt` as the same position |
| `YouTube.BeforeQuery` | src/pages/admin/AdminDashboard.js:165 | `split('?')[0]` is the longest prefix without a `?`, ending at the first `?` if there is one |
| `YouTube.ResolveYouTubeId` | src/pages/admin/AdminDashboard.js:157-180 | an accepted ID is exactly 11 characters and is the candidate the URL rules produce; the length error is given only for a candidate of another length |
| `YouTube.BareIdIsItsOwnCandidate` | src/pages/admin/AdminDashboard.js:157-180 | input naming no YouTube host is its own candidate: it is accepted exactly when its trimmed length is 11, and the URL parser is never consulted |
| `YouTube.UnparseableUrlIsRejected` | src/pages/admin/AdminDashboard.js:160-173 | YouTube-looking input that the URL parser refuses gives "Invalid YouTube URL format" |
| `YouTube.ShortLinkYieldsPath` | src/pages/admin/AdminDashboard.js:163-165 | for host `youtu.be`, the candidate is the path without its first character, cut at the first `?` |
| `YouTube.WatchLinkYieldsV` | src/pages/admin/AdminDashboard.js:166-168 | for a `youtube.com` host with a non-empty `v` parameter, the candidate is that parameter |
| `YouTube.WatchLinkWithoutVIsRejected` | src/pages/admin/AdminDashboard.js:166-180 | for a `youtube.com` link without `v`, the fallback to the whole input always fails the length check |
| `YouTube.BareIdExample` | src/pages/admin/AdminDashboard.js:157-180 | `dQw4w9WgXcQ` is accepted as it is |
| `YouTube.ShortLinkExample` | src/pages/admin/AdminDashboard.js:163-165 | `https://youtu.be/dQw4w9WgXcQ` resolves to `dQw4w9WgXcQ` |
| `YouTube.WatchLinkExample` | src/pages/admin/AdminDashboard.js:166-168 | a watch link with further parameters resolves to its `v` value |
| `YouTube.ShortInputExample` | src/pages/admin/AdminDashboard.js:176-180 | a five-character input is refused for its length |
| `ContentTree.Replace` | src/pages/admin/AdminDashboard.js:412-415 | putting an updated child back into its container leaves the container's kind, and makes the child readable under the same key |
| `ContentTree.Put` | src/pages/admin/AdminDashboard.js:415 | the final assignment succeeds only on an object or array, keeps its kind, and leaves the value readable under the key |
| `ContentTree.SetPath` | src/pages/admin/AdminDashboard.js:409-415 | a successful path write starts from an object or array and keeps its kind |
| `ContentTree.SetPathThenWalk` | src/pages/admin/AdminDashboard.js:409-415 | after a path write, following the same path reads the written value |
| `ContentTree.SetPathFrame` | src/pages/admin/AdminDashboard.js:409-415 | a path write leaves every path that leads away from the written one reading as before |
| `ContentTree.WritePath` | src/pages/admin/AdminDashboard.js:409-415 | the handler's descent loop and final assignment compute exactly the path write, including where it throws |
| `Drafts.EditSectionWrites` | src/pages/admin/AdminDashboard.js:404-417 | after an edit, the section read through the overlay holds the new value at the path |
| `Drafts.EditSectionFrame` | src/pages/admin/AdminDashboard.js:404-417 | an edit adds or replaces only the active section's draft, keeps every other draft, and keeps every path of the edited draft that leads away from the edited one |
| `Drafts.FirstEditCopiesSynced` | src/pages/admin/AdminDashboard.js:405-408 | with no draft yet, the edit starts from the synchronised section; with no such section the handler throws |
| `Drafts.FieldEditLands` | src/pages/admin/AdminDashboard.js:744-771 | writing one plain field of an object section (as both FAQ buttons write `questions`) always succeeds, stores exactly that value and keeps the section's other fields |
| `Drafts.ClearedDraftsReadSynced` | src/pages/admin/AdminDashboard.js:390-393 | once the drafts are cleared, every read falls through to the synchronised content |
| `Drafts.WithColorSetsOneColor` | src/pages/admin/AdminDashboard.js:936-941 | a colour edit sets that colour and keeps the other colours and the other theme settings |
| `Collections.WithStatus` | src/pages/admin/AdminDashboard.js:129 | the status filter returns no more questions than it was given, all of them with the status |
| `Collections.WithStatusIsSubsequence` | src/pages/admin/AdminDashboard.js:129 | the filter keeps the selected questions in their original order |
| `Collections.WithStatusKeepsEveryMatch` | src/pages/admin/AdminDashboard.js:129 | every question with the status is kept |
| `Collections.WithStatusDistributes` | src/pages/admin/AdminDashboard.js:129 | filtering a concatenation is concatenating the filtered parts |
| `Collections.WithStatusOfOne` | src/pages/admin/AdminDashboard.js:129 | a single question is kept exactly when it has the status |
| `Collections.VisibleQuestions` | src/pages/admin/AdminDashboard.js:127-129 | the 'all' filter shows the whole list; any other filter shows only questions with that status and every one of them |
| `Collections.BadgesWithinTotal` | src/pages/admin/AdminDashboard.js:1080-1085 | the Pending and Answered badges add up to at most Total, and to exactly Total when every status is one of the two |
| `Collections.ActiveVideos` | src/pages/admin/AdminDashboard.js:1256 | the active filter keeps no more videos than it was given, all of them active; its partner lemmas below determine the result |
| `Collections.ActiveVideosIsSubsequence` | src/pages/admin/AdminDashboard.js:1256 | the active filter keeps the videos in their original order |
| `Collections.ActiveVideosKeepsEveryActive` | src/pages/admin/AdminDashboard.js:1256 | every active video is kept |
| `Collections.ActiveVideosDistributes` | src/pages/admin/AdminDashboard.js:1256 | the active filter distributes over concatenation, which together with the next row determines it |
| `Collections.ActiveVideosOfOne` | src/pages/admin/AdminDashboard.js:1256 | a single video is kept exactly when it is active |
| `Collections.ActiveBadgeCountsActive` | src/pages/admin/AdminDashboard.js:1254-1256 | the Active badge is the number of active videos in the list |
| `Collections.ActiveCountIsTotalIffAllActive` | src/pages/admin/AdminDashboard.js:1254-1256 | the Active badge equals Total exactly when every video is active |
| `Faq.MaxId` | src/pages/admin/AdminDashboard.js:764 | the maximum is at least every id, with a missing id counting as 0, and is some item's id |
| `Faq.NextFaqId` | src/pages/admin/AdminDashboard.js:763-765 | the new id is above every id in use, is 1 for an empty list, and otherwise is one above some id in use |
| `Faq.WithNewQuestion` | src/pages/admin/AdminDashboard.js:762-771 | the list grows by one at the end, keeps the old items in order, and the new item carries an id no old item has |
| `Faq.WithoutQuestion` | src/pages/admin/AdminDashboard.js:745 | deleting a position removes exactly that element and keeps the rest in order; any other number leaves the list as it was |
| `Faq.DeleteKeepsOthers` | src/pages/admin/AdminDashboard.js:745 | every question but the deleted one is still in the list |
| `Faq.FaqItems` | src/pages/admin/AdminDashboard.js:762 | the add handler starts from the `questions` array, or from the empty list when there is none |
| `Faq.ShownFaqList` | src/pages/admin/AdminDashboard.js:715 | delete buttons are drawn only for a non-empty `questions` array, which is the list the add handler would start from |
| `Validation.AnswerAcceptedIff` | src/pages/admin/AdminDashboard.js:83-86 | an answer is accepted exactly when a question is selected and the text holds a character that is not whitespace |
| `Validation.ImageAcceptedIff` | src/pages/admin/AdminDashboard.js:296-307 | an image is accepted exactly when it is at most 5·1024·1024 bytes and of one of the five types; the size is checked first |
| `Dashboard.Refusal` | src/pages/admin/AdminDashboard.js:101-105 | a failed reply shows an error banner with the service's own message when it has one, the handler's fallback text when the message is empty, and the handler's text for a thrown error |
| `Dashboard.Latest` | src/pages/admin/AdminDashboard.js:52-55 | a reload replaces the list wholesale on success and keeps it otherwise; a definition by cases with nothing of its own to prove, used by the handlers' contracts |
| `Dashboard.AdminDashboard.constructor` | src/pages/admin/AdminDashboard.js:12-43 | every piece of state starts at its initial value, and the login is restored exactly when the stored flag is `'true'` |
| `Dashboard.Reopen` | src/pages/admin/AdminDashboard.js:40-43 | reloading the page over the same session keeps the login state |
| `Dashboard.AdminDashboard.HandleLogin` | src/pages/admin/AdminDashboard.js:330-351 | only a successful login sets the login and the stored flag and reloads the content and theme; a failure only shows the reason; the two stay in step |
| `Dashboard.AdminDashboard.HandleLogout` | src/pages/admin/AdminDashboard.js:356-361 | the logout call is always made; unless it throws, the login and the stored flag are cleared |
| `Dashboard.AdminDashboard.ReloadContent` | src/pages/admin/AdminDashboard.js:341 | the content snapshot is replaced only by a successful reply; a thrown error is passed on |
| `Dashboard.AdminDashboard.ReloadTheme` | src/pages/admin/AdminDashboard.js:342 | the theme snapshot is replaced only by a successful reply; a thrown error is passed on |
| `Dashboard.AdminDashboard.SelectSection` | src/pages/admin/AdminDashboard.js:497 | the chosen section becomes the active one |
| `Dashboard.AdminDashboard.CurrentContent` | src/pages/admin/AdminDashboard.js:475 | the editors show the active section's draft when it is truthy, else the synchronised section; it reads through `Drafts.DraftOrSynced`, whose lemmas carry the promises |
| `Dashboard.AdminDashboard.CurrentTheme` | src/pages/admin/AdminDashboard.js:476 | the theme editor shows the theme draft when there is one, else the synchronised theme; a definition by cases through `Drafts.ThemeOrDraft` with nothing of its own to prove, used by the theme handlers' contracts |
| `Dashboard.AdminDashboard.HandleInputChange` | src/pages/admin/AdminDashboard.js:404-417 | the drafts become the edited drafts, or stay as they were when the handler throws; the synchronised content is never touched |
| `Dashboard.AdminDashboard.EditThemeColor` | src/pages/admin/AdminDashboard.js:936-941 | the theme draft becomes the current theme with that colour set |
| `Dashboard.AdminDashboard.EditFontFamily` | src/pages/admin/AdminDashboard.js:956-1015 | the theme draft becomes the current theme with that font family |
| `Dashboard.AdminDashboard.EditFontWeight` | src/pages/admin/AdminDashboard.js:994 | the theme draft becomes the current theme with that font weight |
| `Dashboard.AdminDashboard.HandleSave` | src/pages/admin/AdminDashboard.js:366-399 | the save sends exactly what the editors show; all drafts are cleared only after a success whose reload did not throw; a refusal or an error keeps both drafts |
| `Dashboard.AdminDashboard.AddFaqQuestion` | src/pages/admin/AdminDashboard.js:761-772 | the FAQ section's `questions` becomes the shown list with a fresh-id placeholder appended; a list that cannot be spread changes nothing |
| `Dashboard.AdminDashboard.DeleteFaqQuestion` | src/pages/admin/AdminDashboard.js:744-747 | the FAQ section's `questions` becomes the shown list without the chosen position |
| `Dashboard.AdminDashboard.LoadNews` | src/pages/admin/AdminDashboard.js:52-55 | the news list is replaced only on success |
| `Dashboard.AdminDashboard.HandleImageUpload` | src/pages/admin/AdminDashboard.js:292-325 | an oversized or wrongly typed file is refused with no call made; an uploaded image's address goes into the article form |
| `Dashboard.AdminDashboard.AddNews` | src/pages/admin/AdminDashboard.js:864-877 | an untitled article is refused with no call made; on success the form is reset and the list reloaded |
| `Dashboard.AdminDashboard.EditNews` | src/pages/admin/AdminDashboard.js:890-901 | the article is sent with " (Edited)" after its title; the list is reloaded only on success |
| `Dashboard.AdminDashboard.DeleteNews` | src/pages/admin/AdminDashboard.js:905-913 | the delete call is made without confirmation; the list is reloaded only on success |
| `Dashboard.AdminDashboard.LoadQuestions` | src/pages/admin/AdminDashboard.js:64-74 | the question list is replaced only on success |
| `Dashboard.AdminDashboard.SetQnaFilter` | src/pages/admin/AdminDashboard.js:1094-1106 | the chosen status filter becomes the active one |
| `Dashboard.AdminDashboard.FilteredQuestions` | src/pages/admin/AdminDashboard.js:127-129 | the Q&A list shows all questions for 'all', else the status filter's result; it reads through `Collections.VisibleQuestions`, whose `WithStatus` lemmas carry the promises |
| `Dashboard.AdminDashboard.HandleAnswerQuestion` | src/pages/admin/AdminDashboard.js:76-80 | the answer form opens on the question, prefilled with its answer and with its answerer or "Admin" |
| `Dashboard.AdminDashboard.CancelAnswer` | src/pages/admin/AdminDashboard.js:1154-1157 | the answer form closes and its text is cleared |
| `Dashboard.AdminDashboard.SubmitAnswer` | src/pages/admin/AdminDashboard.js:82-107 | a blank answer or no selection is refused with no call made; on success the form closes and the list is reloaded; otherwise the form stays open |
| `Dashboard.AdminDashboard.DeleteQuestion` | src/pages/admin/AdminDashboard.js:109-125 | declining the confirmation does nothing; the list is reloaded only on success |
| `Dashboard.AdminDashboard.LoadVideos` | src/pages/admin/AdminDashboard.js:138-148 | the video list is replaced only on success |
| `Dashboard.AdminDashboard.HandleCreateVideo` | src/pages/admin/AdminDashboard.js:150-203 | a form missing its reference or title, or a reference that does not resolve, is refused with no call made; otherwise the form goes out with the resolved ID; on success the form is reset and the list reloaded |
| `Dashboard.AdminDashboard.StartEditingVideo` | src/pages/admin/AdminDashboard.js:1412 | the edit form opens on the video |
| `Dashboard.AdminDashboard.CancelEditingVideo` | src/pages/admin/AdminDashboard.js:1341 | the edit form closes |
| `Dashboard.AdminDashboard.HandleUpdateVideo` | src/pages/admin/AdminDashboard.js:205-253 | without an open form nothing happens; a reference that does not resolve is refused with no call made; on success the form closes and the list is reloaded |
| `Dashboard.AdminDashboard.HandleDeleteVideo` | src/pages/admin/AdminDashboard.js:255-271 | declining the confirmation does nothing; the list is reloaded only on success |
| `Dashboard.AdminDashboard.HandleToggleVideoActive` | src/pages/admin/AdminDashboard.js:273-287 | the list is reloaded only on success; a thrown error shows its banner |

## Left out

- The network: every `fetch` and `cmsApi` call, `response.json()` and the service's address. Each call is an entry in `sent`, and its outcome is an input.
- `new URL`: the WHATWG URL parser is not part of this model. It is a parameter of the resolver.
- The content and theme contexts: their internals are not part of this model. `refreshContent` and `refreshTheme` are modelled as replacing the snapshot with the reply's payload on success, and as passing a thrown error on.
- Rendering: the JSX, the CSS classes, the `loading` and `uploadingImage` flags (they only disable buttons while a handler runs), the transient "Mengupload gambar..." banner, and `console` output.
- The form field setters (login form, article form, new-video and edit-video forms, answer fields). Each copies one typed value into a form record. The methods read those records from the fields.
- The effects that load a list when its section becomes active while logged in (lines 48-50, 60-62, 134-136). The load methods model what they do, but the model does not trigger them.
- The stats and FAQ field-edit handlers (lines 593-595, 724-725, 735-736). They shallow-copy and then change nested objects in place, and with no draft this aliases the synchronised content. Values in this model cannot alias.
- `ContentTree.Put`: writing under a key that is not a canonical index below an array's length, which in the code extends the array or sets a property on it, is modelled as a failed write.
- `ContentTree.Child`: properties inherited from prototypes (`length`, `toString`, ...) are not modelled as children. Strings and numbers are never descended into.
- `null`, booleans and `undefined` inside the content tree. Only strings, integers, arrays and objects are modelled.
- `Faq.IdOf`: a non-empty string, array or object id would be coerced by `Math.max` to a number or `NaN`. The model counts it as 0, as it counts a missing id.
- `Drafts.WithColor`: a `colors` value that is a string or an array would be spread into index-keyed fields. The model starts from no colours for any non-object.
- `Text.TrimIsInfix`: lengths and positions are counted in characters, not UTF-16 code units. The YouTube length check therefore differs from the code for input outside the Basic Multilingual Plane.
- `Text.ParseIndex`: hexadecimal prefixes and numbers beyond 2^53 are not modelled.
- The `parseInt` on a video's display order (line 1313), which can produce `NaN`. Display orders are integers here.
