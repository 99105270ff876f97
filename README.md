# IMDb to MDBList (unofficial): a verified model of the share handler

The app receives text shared from another app (normally an IMDb link).
It pulls the first IMDb title identifier (`tt` followed by digits) out of the text.
It then posts that identifier to the MDBList watchlist API with the user's API key and shows a one-line result.
When it is opened without a share, or no key is stored, it shows a form that stores the key.

The model has six modules:

- `Wrappers` (`wrappers.dfy`): `Option`, standing for Kotlin's nullable types.
- `ImdbId` (`imdb_id.dfy`): the `tt\d+` matcher, with `\d` read as ASCII `[0-9]`, as recursive functions, proved equal to a declarative "leftmost start, longest digit run" description.
- `Outcome` (`outcome.dfy`): the messages, the response abstracted to a status code plus four optional counters, and the priority ladder that picks the message.
- `Submission` (`submission.dfy`): the request. It is a POST to the fixed endpoint with the key appended verbatim, and a payload with two one-element lists that carry the same identifier.
- `Credentials` (`credentials.dfy`): the `MDBListPrefs` preferences file as a class holding a `map<string, string>`. `GetApiKey` and `SaveApiKey` touch only the `MDBListApiKey` entry.
- `Activity` (`activity.dfy`): the routing of `onCreate` and `handleSharedIntent` as a total function. A `MainActivity` class records what the user sees (screen, messages) and what is sent (requests, `finish()`). `Launch` runs one launch from start to end.

Where the code's evident intent and its behaviour differ, or its behaviour is easy to misread, the model is explicit:

- A 200 response whose body is not a JSON object is not reported as a failure; the app crashes (see Findings). `Outcome.ReportAsWritten` models that behaviour. `Outcome.Report` models the intended behaviour and is the one the rest of the model uses.
- When the shared text holds no identifier, the app shows "Invalid IMDb URL" but does not call `finish()` and sets no content. The activity stays open on an empty window; `Launch` states this (`!finished`).
- A status of 400 or more makes `HttpURLConnection.getInputStream` throw, so that case goes through the `catch` branch, not the `else` branch. Both show the same message and finish, so the model does not tell the two paths apart.

## Model

| member | source | states |
|---|---|---|
| `ImdbId.FindFrom` | app/src/main/java/com/pjyama/imdbtomdblistunofficial/MainActivity.kt:82-84 | the first index at or after `from` where `tt` plus a digit begins; no match begins between `from` and it; nothing when no match begins at or after `from` |
| `ImdbId.DigitRunEnd` | app/src/main/java/com/pjyama/imdbtomdblistunofficial/MainActivity.kt:82 | greedy `\d+` with `\d` read as `[0-9]`: every character from `from` to the end point is an ASCII digit, and the character at the end point, if any, is not |
| `ImdbId.ExtractImdbId` | app/src/main/java/com/pjyama/imdbtomdblistunofficial/MainActivity.kt:81-85 | nothing exactly when no `tt` plus digit occurs; otherwise the result is the leftmost, maximal match: it starts where the first match begins, has the shape `tt` plus one or more digits, is a substring of the input, and is not followed by a digit |
| `ImdbId.LeftmostMatchIsExtracted` | app/src/main/java/com/pjyama/imdbtomdblistunofficial/MainActivity.kt:82-84 | completeness: any string that is the leftmost maximal match is exactly what the extractor returns |
| `ImdbId.ExtractedIffLeftmostMatch` | app/src/main/java/com/pjyama/imdbtomdblistunofficial/MainActivity.kt:82-84 | both directions: the extractor returns `id` if and only if `id` is the leftmost maximal match at some index |
| `ImdbId.ExtractedIsShapedSubstring` | app/src/main/java/com/pjyama/imdbtomdblistunofficial/MainActivity.kt:82-84 | a returned id starts with `tt`, has length at least 3, has only digits after the first two characters, and occurs in the input at the returned index |
| `ImdbId.ExtractOverlapping` | app/src/main/java/com/pjyama/imdbtomdblistunofficial/MainActivity.kt:82-84 | in `ttt123` the match starts at index 1 and is `tt123` |
| `ImdbId.ExtractFromLink` | app/src/main/java/com/pjyama/imdbtomdblistunofficial/MainActivity.kt:82-84 | the identifier of a title link is found after the link's other text |
| `ImdbId.ExtractFirstOfTwo` | app/src/main/java/com/pjyama/imdbtomdblistunofficial/MainActivity.kt:84 | of two identifiers only the first is returned |
| `ImdbId.ExtractNoDigits` | app/src/main/java/com/pjyama/imdbtomdblistunofficial/MainActivity.kt:84 | `tt` not followed by a digit gives nothing |
| `Outcome.TextIsInjective` | app/src/main/java/com/pjyama/imdbtomdblistunofficial/MainActivity.kt:118-141 | no two of the ten messages share a text, so every outcome is distinguishable to the user |
| `Outcome.Text` | app/src/main/java/com/pjyama/imdbtomdblistunofficial/MainActivity.kt:43-141 | the exact text of each of the ten messages: the nine toasts of lines 77-141 and the save confirmation of line 43; its length is `TextLength`, which `TextIsInjective` uses |
| `Outcome.CounterValue` | app/src/main/java/com/pjyama/imdbtomdblistunofficial/MainActivity.kt:114-123 | a counter that is absent, or whose enclosing object is absent, reads as 0; a present counter reads as its value |
| `Outcome.Classify` | app/src/main/java/com/pjyama/imdbtomdblistunofficial/MainActivity.kt:117-130 | the three-way ladder as four disjoint cases: both positive, only movies positive, only shows positive, neither positive |
| `Outcome.ReportSuccess` | app/src/main/java/com/pjyama/imdbtomdblistunofficial/MainActivity.kt:113-132 | "Added" exactly when an added counter is positive, with the added kind; "already present" exactly when no added counter is positive and an existing counter is, with the existing kind; the fallback exactly when all four counters, absent ones read as 0, are not positive |
| `Outcome.Report` | app/src/main/java/com/pjyama/imdbtomdblistunofficial/MainActivity.kt:112-143 | "Check your API" exactly when the call failed, the status is not 200, or the body is not a JSON object; otherwise the counter ladder's message |
| `Outcome.ReportAsWritten` | app/src/main/java/com/pjyama/imdbtomdblistunofficial/MainActivity.kt:111-143 | the app as written crashes exactly on a 200 response whose body is not a JSON object; in every other case it shows the message of `Report` |
| `Outcome.NotJsonSuccessCrashes` | app/src/main/java/com/pjyama/imdbtomdblistunofficial/MainActivity.kt:111-113 | the input of the Finding: status 200 with a body that is not a JSON object crashes as written, and gives "Check your API" as intended |
| `Outcome.AbsentCountersReadAsZero` | app/src/main/java/com/pjyama/imdbtomdblistunofficial/MainActivity.kt:114-123 | an absent counter selects the same message as a counter of 0 |
| `Outcome.ExistingIgnoredWhenSomethingAdded` | app/src/main/java/com/pjyama/imdbtomdblistunofficial/MainActivity.kt:117-124 | when an added counter is positive, the existing counters do not affect the message |
| `Outcome.FailuresAreIndistinguishable` | app/src/main/java/com/pjyama/imdbtomdblistunofficial/MainActivity.kt:133-143 | every non-200 status, with any body, and every exception give the same "Check your API" |
| `Outcome.ReportExamples` | app/src/main/java/com/pjyama/imdbtomdblistunofficial/MainActivity.kt:112-134 | the sample bodies: movie added, both added, show already present, empty fallback, and 401 ignoring the body |
| `Submission.BuildRequest` | app/src/main/java/com/pjyama/imdbtomdblistunofficial/MainActivity.kt:90-101 | a POST with JSON content type, whose URL gives back exactly the key and whose payload gives back exactly the identifier |
| `Submission.KeyOf` | app/src/main/java/com/pjyama/imdbtomdblistunofficial/MainActivity.kt:90 | a URL carries a key exactly when it starts with the fixed endpoint, and is then the endpoint followed verbatim by that key |
| `Submission.IdOf` | app/src/main/java/com/pjyama/imdbtomdblistunofficial/MainActivity.kt:92-95 | a payload carries an id exactly when `movies` and `shows` are the same one-element list, and is then `{imdb: id}` in both |
| `Submission.BuildRequestIsInjective` | app/src/main/java/com/pjyama/imdbtomdblistunofficial/MainActivity.kt:90-95 | the request determines the identifier and the key |
| `Credentials.StoredKey` | app/src/main/java/com/pjyama/imdbtomdblistunofficial/MainActivity.kt:148-151 | a key is present exactly when the `MDBListApiKey` entry exists, and is then that entry's value |
| `Credentials.WithKey` | app/src/main/java/com/pjyama/imdbtomdblistunofficial/MainActivity.kt:153-156 | a save adds or overwrites the one entry and leaves every other entry as it was |
| `Credentials.SavedKeyIsRead` | app/src/main/java/com/pjyama/imdbtomdblistunofficial/MainActivity.kt:148-156 | reading after a save gives exactly the saved key |
| `Credentials.SaveOverwrites` | app/src/main/java/com/pjyama/imdbtomdblistunofficial/MainActivity.kt:153-156 | a second save replaces the first |
| `Credentials.Preferences.constructor` | app/src/main/java/com/pjyama/imdbtomdblistunofficial/MainActivity.kt:149 | a preferences file nothing has been written to holds no entries |
| `Credentials.Preferences.GetApiKey` | app/src/main/java/com/pjyama/imdbtomdblistunofficial/MainActivity.kt:148-151 | returns the stored key, or nothing, and changes nothing |
| `Credentials.Preferences.SaveApiKey` | app/src/main/java/com/pjyama/imdbtomdblistunofficial/MainActivity.kt:153-156 | the new entries are the old ones with the key entry set |
| `Credentials.FreshStoreRoundTrip` | app/src/main/java/com/pjyama/imdbtomdblistunofficial/MainActivity.kt:148-156 | on the class: no key before any save, exactly the saved key after one |
| `Activity.IsWhitespace` | app/src/main/java/com/pjyama/imdbtomdblistunofficial/MainActivity.kt:33 | the characters Kotlin's `isWhitespace` accepts on the JVM: the ASCII controls 9-13 and 28-31, space, and the Unicode space, line and paragraph separators including the non-breaking ones |
| `Activity.IsNullOrBlank` | app/src/main/java/com/pjyama/imdbtomdblistunofficial/MainActivity.kt:33 | `isNullOrBlank`: the text is absent, or every character of it is whitespace (so the empty text is blank) |
| `Activity.IsTextShare` | app/src/main/java/com/pjyama/imdbtomdblistunofficial/MainActivity.kt:31 | the intent is present, its action is `android.intent.action.SEND` and its type is exactly `text/plain` |
| `Activity.HandleSharedText` | app/src/main/java/com/pjyama/imdbtomdblistunofficial/MainActivity.kt:72-79 | rejects the text exactly when no identifier is extracted; otherwise sends a request that carries the extracted identifier and the key |
| `Activity.Route` | app/src/main/java/com/pjyama/imdbtomdblistunofficial/MainActivity.kt:28-46 | opens the form, prefilled with the stored key, exactly when the launch is not a plain-text share, the text is null or blank, or no key is stored; otherwise hands the text on |
| `Activity.NoKeyNoRequest` | app/src/main/java/com/pjyama/imdbtomdblistunofficial/MainActivity.kt:31-46 | without a stored key, nothing is sent and the empty form is shown |
| `Activity.SendIff` | app/src/main/java/com/pjyama/imdbtomdblistunofficial/MainActivity.kt:31-34 | a request is sent if and only if the action is SEND, the type is `text/plain`, the text is not blank, a key is stored and the text holds an identifier |
| `Activity.BlankTextHasNoId` | app/src/main/java/com/pjyama/imdbtomdblistunofficial/MainActivity.kt:33 | a blank text never holds an identifier, so the blank check only chooses the form over "Invalid IMDb URL" |
| `Activity.MainActivity.constructor` | app/src/main/java/com/pjyama/imdbtomdblistunofficial/MainActivity.kt:24-26 | a new activity shows nothing, has sent nothing and is not finished |
| `Activity.MainActivity.OnCreate` | app/src/main/java/com/pjyama/imdbtomdblistunofficial/MainActivity.kt:25-47 | the new state follows `Route` on the stored key: the form, or one "Invalid IMDb URL" message, or exactly one more request sent; it never finishes |
| `Activity.MainActivity.HandleSharedIntent` | app/src/main/java/com/pjyama/imdbtomdblistunofficial/MainActivity.kt:72-79 | exactly one request with the extracted identifier, or exactly one "Invalid IMDb URL" message |
| `Activity.MainActivity.OnResponse` | app/src/main/java/com/pjyama/imdbtomdblistunofficial/MainActivity.kt:111-143 | shows exactly the message `Report` selects and finishes |
| `Activity.MainActivity.OnSave` | app/src/main/java/com/pjyama/imdbtomdblistunofficial/MainActivity.kt:41-45 | stores the typed key, shows "API Key Saved!" and finishes |
| `Activity.Launch` | app/src/main/java/com/pjyama/imdbtomdblistunofficial/MainActivity.kt:25-47 | one launch: if a request is sent, it is the one request, exactly one outcome message is shown, and the activity finishes; an invalid text gives one message with no request and no finish; the form path shows no message and sends nothing |

## Findings

| source | as written | input that shows it | evidently intended | confidence | as-written member | corrected member |
|---|---|---|---|---|---|---|
| app/src/main/java/com/pjyama/imdbtomdblistunofficial/MainActivity.kt:111-113 | the body of a 200 response is parsed with `JSONObject(...)` inside `launch(Dispatchers.Main)`. That coroutine runs after the surrounding `try` has returned, so the `catch` never sees its exception | status 200 with a body that is not a JSON object (for example an HTML error page from a proxy, or a JSON array) | the `catch` branch's behaviour: show "Check your API" and finish | medium (rests on coroutine exception propagation); not executed | `Outcome.ReportAsWritten`, `Outcome.NotJsonSuccessCrashes` | `Outcome.Report` |

## Left out

- ImdbId.ExtractImdbId: with `ImdbId.FindFrom` and `ImdbId.DigitRunEnd`, reads `\d` as the ASCII digits `[0-9]`, as the desktop JVM's engine does. Android's regular expressions are backed by ICU, whose `\d` also matches the other Unicode decimal digits (for example U+0661 ARABIC-INDIC DIGIT ONE). On such input the app can return an identifier that the model does not: nothing instead of `tt\U{0661}\U{0662}`, or `tt12` instead of `tt12\U{0663}`. ICU's digit tables are outside the source.
- ImdbId.FindFrom: lets a match begin only at `tt` followed by an ASCII digit; with Android's ICU-backed `\d` a match can also begin at `tt` followed by another Unicode decimal digit.
- ImdbId.DigitRunEnd: stops the run at the first character outside `[0-9]`; Android's ICU-backed greedy `\d+` continues through other Unicode decimal digits.
- Activity.MainActivity.OnResponse: takes its message from the corrected `Outcome.Report`, so on a 200 response whose body is not a JSON object it promises "Check your API" and a finished activity, where the app as written crashes without a message (the Finding; `Outcome.ReportAsWritten` models the crash).
- Activity.Launch: follows the corrected `Outcome.Report` in the same way, so on the send path a 200 response whose body is not a JSON object gives one "Check your API" message and a finished activity instead of the crash of the app as written.

- The Compose settings form (`ApiKeyScreen`): the model keeps only the field's initial text (the stored key or "") and the save action (`MainActivity.OnSave`, taking whatever the user typed).
- Toasts: a message shown is an element appended to `toasts`; display duration and timing are platform behaviour.
- HTTP I/O through `HttpURLConnection` (opening, writing the body bytes, reading the status and the body): the outcome of the call is the `Response` value handed to `OnResponse` and `Launch`.
- The JSON text of the payload: org.json does not fix the order of keys in `toString()`, so the payload is the structured `Payload` value, not a string.
- org.json coercion in `optJSONObject`/`optInt` (a non-object `added`, a counter given as a string or a fraction): counters are taken as already-read optional integers.
- Coroutines and `Dispatchers.IO`/`Main`: the background call and the return to the main thread are the split between `OnCreate` (request recorded) and `OnResponse` (message and finish).
- `finish()` and the Activity lifecycle: a `finished` flag.
- SharedPreferences durability and the asynchronous `apply()`: the file is a map that a save updates at once; other preference files are not modelled.
- The key is put into the URL without URL-encoding. The model keeps it verbatim; how the server would read a key containing `&`, `#` or spaces is not modelled.
- `e.printStackTrace()`: logging output.
- `app/build.gradle.kts`: build configuration with no logic.
