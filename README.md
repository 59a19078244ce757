# Flashcard admin console: reset service, document services and forms

This project is a Dafny model of the logic in a small admin console for vocabulary
and colour flashcards. It has three parts.

- **The password-reset service.** There is one coordinator. It has two bindings:
  - the Express server (`server/server.js`), which keeps an in-process `Map`;
  - the Cloudflare Worker (`server/src/index.js`), which uses a KV namespace.

  The coordinator generates a temporary password and a hex reset token, and issues a
  reset record that expires after one hour. Verify-token redeems the record. An hourly
  sweep deletes the expired records. The coordinator is the class
  `ResetService.Coordinator`: its `records` map is the token store, and its methods
  are the request handlers. The lookup, the password update and the mail send are
  collaborators. Their outcomes are parameters, and the calls the handler makes are
  returned as a trace.
- **The client document services.**
  - The colours document is one `colors` array, read, changed and written back whole
    (`client/src/services/color.js`).
  - The vocabulary document holds a `levels` array (`client/src/services/words.js`).

  A document read is a parameter, and a document write is the returned value.
  `addLevel` and `addWordToLevel` work by pushing onto arrays, so they are methods
  with loops.
- **The client forms and tables.**
  - The sign-in page, the sidebar's change-password panel and the registration form
    are classes whose fields are the React state hooks. Each handler is a method that
    fills the field-error object one check at a time.
  - The email and phone regular expressions are hand-written scanners, each proved
    to accept exactly the language of its regular expression. The hex-colour check
    is written directly as the language of its pattern.
  - The colour and word tables share one pagination module. Each table has its own
    normalisation, search filter and, for words, a newest-first sort. The sort is
    proved sorted, a permutation and stable.

Modules: `Wrappers`, `Text` (JavaScript `trim`, `\s`, `toLowerCase`, `includes`),
`Seqs` (`filter`, `map`, `find`, `flat`), `Secrets`, `ResetService`, `ColorService`,
`WordsService`, `Validators`, `FormRules`, `LoginPage`, `SidebarPanel`,
`RegisterPage`, `Paging`, `ColorPage`, `WordPage`.

Behaviour of the code worth knowing:

- **Write order.** The reset record is written *before* the provider password is
  rotated and before the mail is sent (server/server.js:77-86,
  server/src/index.js:197-210). A later failure therefore answers 500 and leaves a
  live record behind.
- **Email check on the server.** The server does not check that the email is
  well-formed. It only rejects a missing or empty value with 400
  (server/server.js:60, server/src/index.js:175). Well-formedness is checked only in
  the client forms.
- **Redeeming a token.** A live token can be redeemed any number of times: a
  successful verify deletes nothing (server/server.js:184-188). Only an expired token
  is deleted, when it is read.
- **A lookup that throws.** In Express every lookup failure answers 404
  (server/server.js:66-70). In the Worker, a lookup that finds no user answers 404,
  while one that throws reaches the handler's catch-all and answers 500.

## Model

| member | source | states |
|---|---|---|
| Text.TrimStartFacts | client/src/pages/Login.jsx:48 | leading trim: the result is the suffix of the input after a run of whitespace, and it does not start with whitespace |
| Text.TrimEndFacts | client/src/pages/Login.jsx:48 | trailing trim: the result is a prefix of the input followed only by whitespace, and it does not end with whitespace |
| Text.TrimIsSlice | client/src/pages/Login.jsx:48 | `trim()` returns the slice between the leading and trailing whitespace, and that slice neither starts nor ends with whitespace |
| Text.TrimIdempotent | client/src/pages/ColorFrom.jsx:49-51 | trimming an already trimmed value changes nothing |
| Text.TrimPadded | client/src/pages/Register.jsx:26-27 | whitespace added around a value is removed again by `trim()` |
| Text.ToLower | client/src/pages/ColorFrom.jsx:105 | `toLowerCase()` keeps the length |
| Text.ToLowerIdempotent | client/src/pages/ColorFrom.jsx:105 | lowering twice is lowering once |
| Text.IncludesAt | client/src/pages/ColorFrom.jsx:105-106 | `includes` holds exactly when the substring occurs at some index |
| Text.IncludesEmpty | client/src/pages/WordFrom.jsx:130-131 | every string includes the empty search text |
| Text.DecimalString | client/src/services/color.js:23 | the rendered time stamp is a non-empty run of decimal digits |
| Text.Utf16Length | client/src/pages/Login.jsx:50 | `.length` counts UTF-16 code units: at least one per character and at most two, zero exactly for the empty string |
| Text.Utf16LengthConcat | client/src/pages/Register.jsx:24 | `.length` adds up over concatenation |
| Text.Utf16LengthBmp | client/src/components/Sidebar.jsx:55-56 | `.length` equals the number of characters exactly when no character lies beyond the Basic Multilingual Plane |
| Text.ThreeEmojiAreSixUnits | client/src/pages/Login.jsx:50 | three U+1F600 emoji are three characters but six code units, so they pass the six-character minimum |
| Seqs.Filter | client/src/services/color.js:64 | `filter` keeps exactly the elements that pass, and nothing else |
| Seqs.FilterConcat | client/src/services/color.js:64 | filtering distributes over concatenation, so the kept elements keep their order |
| Seqs.FilterIdempotent | client/src/services/color.js:64 | filtering twice with the same test is filtering once |
| Seqs.FilterAll | client/src/pages/ColorFrom.jsx:104-107 | a test every element passes keeps the whole list |
| Seqs.Map | client/src/services/color.js:52 | `map` keeps the length and applies the function at every index |
| Seqs.Find | client/src/services/color.js:54 | `find` returns something exactly when an element passes, and then it returns the first one that passes |
| Seqs.Flatten | client/src/pages/WordFrom.jsx:103-104 | the flattening is as long as all the inner lists together |
| Seqs.FlattenMembers | client/src/pages/WordFrom.jsx:103-104 | an element is in the flattening exactly when it is in one of the inner lists |
| Secrets.AlphabetSpelledOut | server/server.js:39 | the alphabet, built from character ranges, is the literal `chars` string |
| Secrets.AlphabetFacts | server/src/index.js:3 | the alphabet has 60 characters, and none of them is one of `0 1 I O i l o` |
| Secrets.CharIndex | server/server.js:42 | `floor(r * 60)` for `r = draw/den` in [0,1) is the unique k with k ≤ 60r < k+1, and it lies in [0,60) |
| Secrets.GeneratePassword | server/server.js:38-45 | the password has exactly `length` characters; character i is the alphabet letter picked by draw i; no character is ambiguous |
| Secrets.HexByte | server/src/index.js:15 | `toString(16).padStart(2,'0')` gives exactly the high-nibble digit followed by the low-nibble digit |
| Secrets.HexEncode | server/src/index.js:15 | the encoding is twice as long as the input, with byte i at positions 2i and 2i+1 |
| Secrets.HexEncodeDigits | server/src/index.js:15 | every character of the encoding is a lower-case hex digit |
| Secrets.GenerateToken | server/src/index.js:12-16 | a token is 64 characters long and every character is in `[0-9a-f]` |
| Secrets.HexRoundTrip | server/src/index.js:15 | the hex text determines the bytes: decoding it gives them back |
| Secrets.TokenInjective | server/server.js:74 | distinct random byte strings give distinct tokens |
| ResetService.RedemptionStatus | server/server.js:175-188 | an unknown token answers 404 and an expired one 410; 200 is answered exactly for a redeemed token |
| ResetService.RedeemRepeatable | server/server.js:173-188 | verify on a live or unknown token leaves the store unchanged and can be repeated with the same answer; on an expired token it deletes that key only, and the token is unknown afterwards |
| ResetService.IssuedRecordRedeems | server/server.js:77-81 | an issued record redeems to its email and temporary password up to and including `issuedAt + 3600000` (the comparison is strict), and is expired after that |
| ResetService.SweepHidesOnlyExpired | server/server.js:192-199 | after the sweep, verify answers as before except that 410 becomes 404; no verify at or before the sweep time answers 410 |
| ResetService.SweepKeepsExactlyLive | server/server.js:194-198 | the sweep keeps every unexpired entry unchanged, drops every expired one, and a second sweep at the same time changes nothing |
| ResetService.WorkerLookup | server/src/index.js:108-112 | there is no account when `users` is missing or empty; otherwise the account is `users[0]` |
| ResetService.LastSegment | server/src/index.js:230 | `split('/').pop()` is the slash-free suffix that follows the last `/` |
| ResetService.LastSegmentOfToken | server/src/index.js:230 | the last segment of `prefix/token` is the token |
| ResetService.RouteFacts | server/src/index.js:147-258 | OPTIONS is always a preflight; GET on the verify path carries the token; forgot-password is served only for POST; other verbs fall through to 404 |
| ResetService.Coordinator.ForgotPassword | server/server.js:56-168 | a missing email gives 400 with no call and no write; a failed lookup gives 404 (or 500 in the Worker when the lookup throws) with no write; on success the record `{email, tempPassword, now+3600000}` is put under the fresh token first; a Worker store write that throws gives 500 with no password change, no mail and no write; otherwise the provider update carries the same password, the mail the same password and link, a later failure gives 500 with the record kept; 200 exactly when every step succeeds |
| ResetService.Coordinator.IssueReset | server/src/index.js:192-225 | the record `{email, tempPassword, now+3600000}` is put under the token of the drawn bytes first (with the one-hour TTL in the Worker); a KV put that throws answers 500 with the store unchanged and nothing else called; otherwise the record is stored, the provider update carries the same drawn password, a throwing update answers 500 with no mail, and the mail carries that password and the token's link, with 200 exactly when it is sent |
| ResetService.Coordinator.VerifyToken | server/server.js:171-189 | the answer and status are those of `Redeem` on the old store, and the new store is `AfterRedeem` (only an expired token is deleted) |
| ResetService.Coordinator.CleanupExpired | server/server.js:192-199 | after the loop the store is exactly its unexpired part |
| ResetService.Coordinator.Fetch | server/src/index.js:137-259 | preflight, health, test and unmatched requests answer without calls or writes (404 "Not Found" for the last); verify runs the verify handler on the last path segment; forgot-password runs the issue handler |
| ColorService.EnsureShape | client/src/services/color.js:7-11 | a non-object or a non-array `colors` gives `[]`; otherwise the stored array |
| ColorService.ListColors | client/src/services/color.js:13-18 | a missing document lists `[]` |
| ColorService.ShapeNewColor | client/src/services/color.js:20-27 | the new colour has the given id or `"c" + time`, a trimmed name, a trimmed hex code or `''`, and the given examples array or `[]` |
| ColorService.AddColor | client/src/services/color.js:20-36 | an empty name throws; otherwise the stored list is the old list followed by the new colour |
| ColorService.ReplaceColors | client/src/services/color.js:38-43 | a non-array throws |
| ColorService.ReplaceThenList | client/src/services/color.js:38-43 | after a replace, the document lists exactly the given colours |
| ColorService.Merge | client/src/services/color.js:52 | `{...c, ...updates}`: each key present in `updates` overrides, and every other key keeps the colour's value |
| ColorService.MergeIdempotent | client/src/services/color.js:52 | spreading the same updates twice is spreading them once, and empty updates change nothing |
| ColorService.UpdateColor | client/src/services/color.js:46-55 | an empty id throws; the length is kept; colours with another id are unchanged; colours with the id are merged; the result is the first colour carrying the id afterwards |
| ColorService.UpdateReturnsMergedFirst | client/src/services/color.js:52-54 | when the id is not changed, the result is the first matching colour merged, and `undefined` exactly when no colour had the id |
| ColorService.DeleteColor | client/src/services/color.js:58-67 | an empty id throws; the stored list keeps exactly the colours without that id |
| ColorService.DeleteKeepsOrderAndIsIdempotent | client/src/services/color.js:64 | a delete keeps the order of the remaining colours, and deleting the same id again changes nothing |
| ColorService.AddThenDelete | client/src/services/color.js:33-34 | adding a colour under a fresh id and then deleting that id gives back the original list |
| WordsService.AddWord | client/src/services/words.js:7-31 | throws unless text and level are non-empty; the result's gifUrl is the uploaded file's URL, otherwise `gifUrl \|\| null` |
| WordsService.CheckLevelAndId | client/src/services/words.js:40 | update and delete go ahead exactly when both level and id are non-empty |
| WordsService.SeedVocabularyData | client/src/services/words.js:56-59 | a non-array throws; otherwise exactly the given levels are written |
| WordsService.GetVocabularyData | client/src/services/words.js:61-64 | a missing document gives no levels |
| WordsService.FirstLevel | client/src/services/words.js:83 | `find` stops at the first level with the name, or at the end when there is none |
| WordsService.AddLevelIdempotent | client/src/services/words.js:71-72 | a second add of the same level changes nothing; afterwards a new name occurs exactly once and an existing name's count is unchanged |
| WordsService.AddLevel | client/src/services/words.js:66-74 | an empty name throws; an existing name causes no write; otherwise `{level, words: []}` is appended at the end |
| WordsService.AddWordToLevel | client/src/services/words.js:76-94 | throws without a level name, or without a word with id and text; creates the level at the end when it is missing; appends `{gifPath or '', id, text}` to the first level with that name and leaves every other level unchanged |
| Validators.IndexOf | client/src/pages/Login.jsx:48 | the first position of a character, or the length when it is absent |
| Validators.EmailMatches | client/src/pages/Login.jsx:48 | the scanner accepts exactly the language of `^[^\s@]+@[^\s@]+\.[^\s@]+$` |
| Validators.ValidEmailShape | client/src/pages/Login.jsx:48 | a valid trimmed email has at least 5 characters and no whitespace |
| Validators.PhoneMatches | client/src/pages/Register.jsx:27 | the scanner accepts exactly the language of `^\+?[0-9]{7,15}$` |
| Validators.DigitRunFacts | client/src/pages/Register.jsx:27 | the digit run from a position consists of digits and stops at a non-digit or at the end |
| Validators.HexColorIgnoresCase | client/src/pages/ColorFrom.jsx:38 | `#[0-9a-fA-F]{6}` accepts a string exactly when it accepts its lower-cased form |
| Validators.EncodedBytesAreHexColor | client/src/pages/ColorFrom.jsx:38 | three bytes hex-encoded after `#` are always accepted |
| FormRules.OrDefault | client/src/pages/Login.jsx:57 | `err.message \|\| fallback` is the message when it is non-empty, otherwise the fallback |
| FormRules.ChangeErrors | client/src/pages/Login.jsx:67-70 | each password check records its own key and message, with `.length` counted in UTF-16 units; "must be different" overwrites the length message; an email error already recorded is kept; no key is added exactly when prev ≥ 6, new ≥ 6, new ≠ prev and confirm = new |
| FormRules.AddPasswordErrors | client/src/components/Sidebar.jsx:55-58 | the four checks run one assignment at a time build exactly the `ChangeErrors` object |
| LoginPage.VerifyReply | server/server.js:184-188 | the verify reply has `success` exactly for a redeemed token, and then carries its email and temporary password |
| LoginPage.AutofillFromLink | client/src/pages/Login.jsx:30-35 | a reset link fills the form exactly when its record is live with a non-empty email and password, and it fills in the stored values |
| LoginPage.ValidEmailPassesServerCheck | client/src/pages/Login.jsx:126-135 | an email the form sends never hits the server's missing-email 400 |
| LoginPage.EmailErrors | client/src/pages/Login.jsx:48-49 | the email key is recorded, with its message, exactly when the trimmed email does not match the email pattern |
| LoginPage.LoginForm.OnSubmit | client/src/pages/Login.jsx:43-61 | sign-in is attempted with the trimmed email exactly when the email is valid and the password's UTF-16 length is ≥ 6; each failed check records its key and message; a rejected sign-in shows its message or the default |
| LoginPage.LoginForm.ValidateChange | client/src/pages/Login.jsx:63-73 | the field errors are the email error (when the email is invalid) followed by the password-change errors; returns true exactly when the email is valid and the change rule holds, which is exactly when no field error is recorded |
| LoginPage.LoginForm.OnOpenConfirm | client/src/pages/Login.jsx:75-81 | the messages clear; the field errors are those `validateChange` records; the confirmation is open afterwards exactly when it already was or the email and the password change validate |
| LoginPage.LoginForm.OnConfirmChange | client/src/pages/Login.jsx:83-115 | sign-in is called with the trimmed email and the previous password; the update is called, with the new password, exactly when sign-in succeeds; success clears email and the three password fields and returns to login mode whatever the notification does; a failure shows its message and changes nothing else |
| LoginPage.LoginForm.ClearAfterChange | client/src/pages/Login.jsx:104-109 | the success message, the email and the three password fields cleared, and the login mode |
| LoginPage.LoginForm.OnCancelChange | client/src/pages/Login.jsx:117-119 | the confirmation closes |
| LoginPage.LoginForm.OnForgotPassword | client/src/pages/Login.jsx:121-150 | the request is sent, with the trimmed email, exactly for a valid email; a non-ok reply shows `data.error` or the default; an ok reply shows the sent message |
| LoginPage.LoginForm.ApplyTokenAutofill | client/src/pages/Login.jsx:21-41 | a token is fetched only when present; mode, email, previous password and message change only when `success`, email and temporary password are all truthy |
| LoginPage.LoginForm.ShowForgot | client/src/pages/Login.jsx:314-318 | the messages and field errors clear and the mode becomes forgot |
| LoginPage.LoginForm.BackToSignIn | client/src/pages/Login.jsx:328-337 | all five fields, the messages and the field errors clear, and the mode becomes login |
| SidebarPanel.ChangePasswordPanel.HandleChangePassword | client/src/components/Sidebar.jsx:50-91 | the field errors are exactly the password-change errors; sign-in, with the signed-in email and the previous password, is attempted exactly when no field error is recorded; the update, with the new password, only after sign-in succeeds; a completed update reports success and clears the three fields; a failure shows its message and keeps them |
| SidebarPanel.ChangePasswordPanel.ClearAfterChange | client/src/components/Sidebar.jsx:78-81 | the success message and the three password fields cleared |
| SidebarPanel.ChangePasswordPanel.CloseAfterSuccess | client/src/components/Sidebar.jsx:82-85 | the delayed callback closes the panel and clears the success message |
| SidebarPanel.ChangePasswordPanel.Cancel | client/src/components/Sidebar.jsx:228-235 | the panel closes with the fields, both messages and the field errors cleared |
| RegisterPage.RegistrationErrors | client/src/pages/Register.jsx:20-30 | each key is recorded exactly when its check fails (blank trimmed name, invalid email, password under 6 UTF-16 units, confirm unequal, non-blank phone that is not a phone number) and carries that check's message; no key exactly when the form is valid |
| RegisterPage.RegisterForm.OnSubmit | client/src/pages/Register.jsx:17-56 | the field errors are those of the entries; the account is created, with the trimmed email and the name and phone as typed, exactly when the entries are valid; a rejected creation shows its message or the default |
| RegisterPage.PhonePaddingIrrelevant | client/src/pages/Register.jsx:26-27 | whitespace around the phone never changes whether the entries validate |
| Paging.TotalPages | client/src/pages/ColorFrom.jsx:108 | `max(1, ceil(n/5))`: at least 1, the pages hold all rows, and no page is spare |
| Paging.SliceBound | client/src/pages/ColorFrom.jsx:109 | `slice` bounds clamp into the list |
| Paging.PageItems | client/src/pages/ColorFrom.jsx:109 | a page holds at most 5 rows; they are the rows starting at `(p-1)*5`; a page that starts inside the list is non-empty |
| Paging.RowPlacement | client/src/pages/ColorFrom.jsx:154 | row i is shown at position `i % 5` of page `i/5 + 1`, that page exists, and its number cell reads i+1 |
| Paging.PagePastEndIsEmpty | client/src/pages/WordFrom.jsx:134 | a page past the last one shows no rows |
| Paging.PrevPage | client/src/pages/ColorFrom.jsx:205 | Prev never goes below page 1 |
| Paging.NextPage | client/src/pages/ColorFrom.jsx:207 | Next never goes past the last page |
| Paging.NavigationStaysInRange | client/src/pages/WordFrom.jsx:227-236 | from a page in range, both buttons land in `[1, totalPages]`, moving by one unless at the edge |
| Paging.PageCursor.SearchChanged | client/src/pages/ColorFrom.jsx:100-102 | a change of search resets the page to 1 |
| Paging.PageCursor.Prev | client/src/pages/ColorFrom.jsx:205 | the button is disabled on page 1 and below; otherwise the page becomes `max(1, p-1)`, one less |
| Paging.PageCursor.Next | client/src/pages/ColorFrom.jsx:207 | the button is disabled on the last page and past it, where the page stays; otherwise the page becomes `min(totalPages, p+1)`, one more |
| ColorPage.NormalizeColor | client/src/pages/ColorFrom.jsx:82-87 | a missing id becomes `name-hexCode` (with `undefined` for an absent part); a missing name or hex becomes `''`; non-array examples become `[]` |
| ColorPage.NormalizeColors | client/src/pages/ColorFrom.jsx:82-87 | a non-array list becomes `[]`; otherwise every colour is normalised in order |
| ColorPage.Filtered | client/src/pages/ColorFrom.jsx:104-107 | the filter keeps exactly the rows whose lowered name or hex includes the lowered search text |
| ColorPage.EmptySearchShowsAll | client/src/pages/ColorFrom.jsx:104-107 | an empty search shows every row |
| ColorPage.SearchIgnoresCase | client/src/pages/ColorFrom.jsx:104-107 | the search ignores the case of the search text |
| ColorPage.ShapePayload | client/src/pages/ColorFrom.jsx:49-59 | the payload has a trimmed name and hex, and `examples` is `[trimmed word]` or `[]` |
| ColorPage.CreatedColorIsListed | client/src/pages/ColorFrom.jsx:56-60 | a valid form's create is accepted by the service and the colour comes back in the table with its trimmed name, hex and examples |
| ColorPage.FormErrors | client/src/pages/ColorFrom.jsx:35-40 | `name` is flagged exactly when the trimmed name is blank, `hex` exactly when a non-blank trimmed hex is not `#RRGGBB`, each with its message; no key is recorded exactly when the form is valid |
| ColorPage.ColorForm.OnSubmit | client/src/pages/ColorFrom.jsx:33-75 | a save is requested exactly when the form is valid; the errors shown are the form's errors unless a save went through; it is an update of the edited colour or a create; after a save the form clears and closes; after a failure it stays as it was |
| ColorPage.ColorForm.ResetAfterSave | client/src/pages/ColorFrom.jsx:61-68 | after a save the three inputs and the errors clear, the modal closes and no colour is being edited |
| ColorPage.PageRows | client/src/pages/ColorFrom.jsx:109 | the table shows at most 5 rows |
| WordPage.NormalizeLevel | client/src/pages/WordFrom.jsx:105 | `level \|\| levelName \|\| grade \|\| ''`: the level is the first non-empty of the three, empty exactly when all three are; every other field is kept |
| WordPage.InsertByKey | client/src/pages/WordFrom.jsx:106-110 | inserting adds exactly the one element |
| WordPage.InsertByKeySorted | client/src/pages/WordFrom.jsx:106-110 | inserting keeps a newest-first list newest first |
| WordPage.SortByNewest | client/src/pages/WordFrom.jsx:106-110 | the sorted list is a permutation of the input with `createdAt.seconds` (missing = 0) never increasing |
| WordPage.InsertByKeyStable | client/src/pages/WordFrom.jsx:106-110 | inserting a word keeps the order among words of each key, placing the new word before the old ones of its key |
| WordPage.SortByNewestStable | client/src/pages/WordFrom.jsx:106-110 | words with equal seconds keep their original order, as the stable `sort` does |
| WordPage.CombineWords | client/src/pages/WordFrom.jsx:102-110 | the combined list has every listed word of the four levels once, level normalised, newest first |
| WordPage.CombineWordsMembers | client/src/pages/WordFrom.jsx:103-105 | a word is in the combined list exactly when it is the normalised form of a listed word |
| WordPage.Filtered | client/src/pages/WordFrom.jsx:129-132 | the filter keeps exactly the words whose lowered text or level includes the lowered search text |
| WordPage.FilteredKeepsOrder | client/src/pages/WordFrom.jsx:129-132 | searching keeps the newest-first order |
| WordPage.PageRows | client/src/pages/WordFrom.jsx:134 | the table shows at most 5 rows |
| WordPage.UpdateGifUrl | client/src/pages/WordFrom.jsx:66 | `gifPath \|\| preview \|\| null`: the path when set, else the preview when set, else nothing |
| WordPage.SubmitRequest | client/src/pages/WordFrom.jsx:51-78 | a request exists exactly when the trimmed text is non-empty; it carries the untrimmed text and the grade; it is an update of the edited id with `gifPath \|\| preview \|\| null` exactly when a word is edited, otherwise a create with the file and `gifPath \|\| undefined` (the path when set, else nothing) |
| WordPage.FormRequestsPassServiceChecks | client/src/pages/WordFrom.jsx:63-75 | for any non-empty grade (a selector option or an edited word's level) and a non-empty edited id, what the form sends passes the service's text/level and level/id checks |
| WordPage.DefaultGradeListed | client/src/pages/WordFrom.jsx:84 | the grade the form resets to is one of the four levels |
| WordPage.WordForm.OnFileChange | client/src/pages/WordFrom.jsx:27-37 | a chosen file becomes the preview and clears the path; clearing the choice clears the preview |
| WordPage.WordForm.OnEdit | client/src/pages/WordFrom.jsx:195-203 | the form is filled from the listed word: its id is edited, its level (or Pre-KG) is the grade, its text is the text, no file, its GIF URL (or '') is both path and preview, and the modal opens; the grade stays non-empty |
| WordPage.WordForm.OnGradeChange | client/src/pages/WordFrom.jsx:263-270 | the selector sets the grade to one of its four options |
| WordPage.WordForm.OnPathChange | client/src/pages/WordFrom.jsx:39-43 | a typed path clears the file and is its own preview |
| WordPage.WordForm.RemovePreview | client/src/pages/WordFrom.jsx:45-49 | preview, file and path clear |
| WordPage.WordForm.OnSubmit | client/src/pages/WordFrom.jsx:51-96 | the request sent is the one the form's inputs call for; a blank text records the required message and nothing else; after a save the form resets and closes, otherwise it stays as it was |
| WordPage.WordForm.ResetAfterSave | client/src/pages/WordFrom.jsx:80-89 | text '', no file, path '', preview '', grade Pre-KG, no errors, the modal closed and nothing being edited |

## Left out

- Email composition and delivery: the MailChannels request, nodemailer and the HTML
  templates are I/O. Only "the send returned or threw" is modelled, and the mail's
  recipient, password and link are in the call trace.
- Identity-provider calls: the Firebase Admin calls and the identitytoolkit REST calls
  are foreign calls. Their outcomes are parameters.
- Randomness: `Math.random`, `crypto.getRandomValues` and `crypto.randomBytes` are
  inputs. The model cannot state uniformity or unguessability.
- Timers and storage eviction: the `setInterval` scheduling, the KV store's own TTL
  eviction and the Sidebar's 2-second `setTimeout` are not modelled as timers. The
  sweep body and the timer callback are methods that the caller invokes. The KV TTL
  appears only as the value passed with the put.
- Request parsing and CORS headers: a malformed JSON body, a KV record that does not
  parse, and the header values are not modelled. The Worker's routing is kept.
- Malformed vocabulary documents: a stored document whose `levels` is not an array,
  or a level without a `words` array, cannot be represented. On those, `addLevel` and
  `addWordToLevel` throw a TypeError in the source. Documents written by
  `seedVocabularyData` and by these two functions always have both arrays.
- Express's own 404 for unmatched routes is not modelled. The Express binding is
  modelled only through its two handlers and the sweep.
- Concurrency: simultaneous forgot-password calls, and the `Promise.all` fan-out of the
  word page, are not modelled. Each handler runs to completion.
- Resetting a password: `/api/password-changed` is an endpoint outside both servers,
  and the client ignores its outcome.
- `contrastText` in the colour page: it uses floating-point luminance.
- Firestore and Storage I/O (`addDoc`, `uploadBytes`, `getDownloadURL`, `getDocs`,
  `getDoc`, `setDoc`, `deleteDoc`): documents are values. `listWordsByLevel` is a pure
  read and appears only as the lists given to `WordPage.CombineWords`. The follow-up
  read that `updateWord` returns is not modelled.
- Rendering and UI-only files: React rendering, modals, toasts, the clipboard, and the
  `submitting`/`loading` flags that only disable buttons. The same goes for
  `client/src/App.jsx`, `client/src/components/Toast.jsx`,
  `client/src/pages/Dashboard.jsx` and the two connectivity scripts under `server/`.
- Clearing one field error as the user types: this is a rendering detail, and the
  model keeps the error object set by the last submit.
- Text.LowerChar / Text.ToLower: lower-case only ASCII letters. JavaScript also lowers
  other scripts.
- Missing string fields of client documents are modelled as `''`. `x || d` and the
  form checks treat a missing value and `''` alike. The word search's text test
  `w.text?.toLowerCase().includes(q)` does not when the search is empty: it is
  `undefined` (falsy) for a missing text and true for `''`
  (client/src/pages/WordFrom.jsx:130). The filter's result is still the same, because
  the level test beside it runs on a level that normalisation always makes a string
  (client/src/pages/WordFrom.jsx:105), and any string includes the empty search.
  `Option` is kept where the difference shows, which is the colour id built by
  template interpolation.
- ResetService.Coordinator.Fetch: states the status and body for the forgot-password
  route only as one of 200/400/404/500. The details are those of `ForgotPassword`,
  which it calls.
- WordPage.WordForm.OnEdit: takes a listed word's id to be non-empty. Listed words
  come from stored documents, and a document id is never empty.
