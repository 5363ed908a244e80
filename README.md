# Account, session, chat and card-filter model of the X-15 website

The website's pages share one browser key-value store. Its page handlers use it as a small record store:

- `user_<name>` holds a user object `{username, email, password, pfp?, description?}`.
- `loggedInUser` holds the signed-in name.
- `chat_messages` holds the global chat log.

This project models that store and the handlers that write it:

- sign-up;
- sign-in behind the "I'm not a robot" challenge;
- the profile editor, including the username re-key;
- log-out and delete-account;
- sending a chat message.

It also models the search bar and the tag filter on the category pages.

Layout, one module per concern:

- `strings.dfy` (`Strings`) models the JavaScript built-ins the handlers rely on: `trim`, with the exact white-space set of ECMA-262; `toLowerCase`; and `includes`.
- `store.dfy` (`Store`) holds the stored values and the key names. It defines `WellFormed`, the typing invariant that every handler keeps: records under `user_` keys, a string under `loggedInUser`, a list under `chat_messages`. It also defines the `LocalStore` class with `setItem`/`removeItem`.
- `accounts.dfy` (`Accounts`) holds sign-up, sign-in, profile, log-out and delete-account.
- `chat.dfy` (`Chat`) holds the chat page.
- `category.dfy` (`Category`) holds card search and tag filtering over a hidden-flag array.

Each store handler has a pure function that gives its outcome and the store it leaves behind (`SignUp`, `SignIn`, `ProfileSubmit`, `Logout`, `DeleteAccount`, `ChatSend`). Two things are built on top:

- A method that follows the handler's code step by step. For sign-up this is the module-level method `SubmitSignUp`; for the other handlers it belongs to a page class (`SignInPage`, `ProfileEditor`, `TrackingProfileEditor`, `AccountControls`, `ChatPage`). Each keeps `store.Valid()` and proves one of three equations:
  - sign-up and sign-in: `Step(outcome, store.entries) == F(old(store.entries), …)`;
  - the profile editors: `ProfileStep(outcome, store.entries, currentUserData) == ProfileSubmit(old(store.entries), …)`, which covers the page's user object too;
  - chat send, log-out and delete, which report no outcome: `store.entries == F(old(store.entries), …)`.
- Lemmas about `F`. These state the properties: which keys are written, which are left alone, when a guard refuses.

What a page reads at start-up is a field of its page object, fixed at construction:

- the session name on the profile, chat and settings pages;
- the user object on the profile page, which each save then updates;
- the user's picture on the chat page.

A user object's fields are all optional. The profile page loads `{}` when the record is missing and writes back whatever it loaded.

Two places where the code and the evident intent disagree are under "## Findings". For the no-results message, the page model uses the corrected rule. For the profile editor, both the editor as written and the corrected editor are modelled.

## Model

| member | source | states |
|---|---|---|
| `Strings.IsSpace` | main.js:172-173 | the white-space and line-terminator code points of ECMA-262 (sections 12.2 and 12.3), which is the set `trim` removes from both ends; `TrimShape` is stated in terms of it |
| `Strings.TrimStart` | main.js:172 | the front half of `trim`: drops the leading run of white space; `TrimStartShape` states exactly what is dropped and kept |
| `Strings.TrimEnd` | main.js:172 | the back half of `trim`: drops the trailing run of white space; `TrimEndShape` states exactly what is dropped and kept |
| `Strings.Trim` | main.js:172-173 | `s.trim()`, both ends; `TrimShape`, `TrimEmptyIffAllSpace` and `TrimIdempotent` state its properties |
| `Strings.LowerChar` | main.js:578 | `toLowerCase` on one character: the ASCII capitals and the Latin-1 capitals (U+00C0 to U+00DE except U+00D7) map to the letter 32 code points higher, every other character is unchanged |
| `Strings.ToLower` | main.js:578-581 | `s.toLowerCase()`: `LowerChar` on every character; `ToLowerIdempotent` states that it keeps the length and is idempotent |
| `Strings.Includes` | main.js:581 | `s.includes(t)`: `t` is a prefix of `s` or of one of its suffixes; `IncludesIff` ties it to "occurs at some index" |
| `Strings.TrimStartShape` | main.js:172-173 | trimming the front removes exactly the leading run of white space and leaves a suffix whose first character is not white space |
| `Strings.TrimEndShape` | main.js:172-173 | trimming the back removes exactly the trailing run of white space and leaves a prefix whose last character is not white space |
| `Strings.TrimShape` | main.js:172-173 | `trim` returns a slice of its input; everything cut off on either side is white space, and the result starts and ends with non-white-space |
| `Strings.TrimEmptyIffAllSpace` | main.js:501-502 | a trimmed string is empty exactly when every character of the input is white space, which is when a `!value.trim()` guard fires |
| `Strings.TrimIdempotent` | main.js:593 | trimming twice gives the same result as trimming once |
| `Strings.ToLowerIdempotent` | main.js:578-581 | lower-casing keeps the length, and lower-casing twice gives the same result as lower-casing once |
| `Strings.IncludesIff` | main.js:581 | `s.includes(t)` holds exactly when `t` occurs in `s` at some index |
| `Strings.IncludesSelfAndEmpty` | main.js:594 | every string includes itself and the empty string |
| `Store.UserKey` | main.js:180 | the record key `'user_' + name`; `UserKeyInjective` and `UserKeyNotReserved` state that it is injective and never a reserved key |
| `Store.StoredUser` | main.js:274-280 | `getItem('user_' + name)` parsed: the record stored under the name's key, or none when the key is absent |
| `Store.UserOrEmpty` | main.js:379 | `getItem('user_' + name)` parsed with `'{}'` as the fallback: the stored record, or the empty object when it is missing (likewise main.js:135 and main.js:468) |
| `Store.Session` | main.js:60 | `getItem('loggedInUser')`: the signed-in name, or none (likewise main.js:131, 363 and 458) |
| `Store.LoggedIn` | main.js:364 | the session value is truthy: present and not the empty string |
| `Store.ChatLog` | main.js:504 | `getItem('chat_messages')` parsed with `'[]'` as the fallback: the stored log, or the empty list when the key is absent |
| `Store.UserKeyInjective` | main.js:180 | two different names never share a `user_` key |
| `Store.UserKeyNotReserved` | main.js:283 | no `user_` key is the `loggedInUser` or the `chat_messages` key |
| `Store.RecordWriteKeepsWellFormed` | main.js:186 | writing a record under a `user_` key keeps the store well formed |
| `Store.SessionWriteKeepsWellFormed` | main.js:283 | writing a name under `loggedInUser` keeps the store well formed |
| `Store.ChatWriteKeepsWellFormed` | main.js:513 | writing a message list under `chat_messages` keeps the store well formed |
| `Store.LocalStore.constructor` | main.js:186 | the store starts with the given well-formed entries |
| `Store.LocalStore.SetItem` | main.js:186 | `setItem` maps the key to the value, and every other key keeps its value |
| `Store.LocalStore.RemoveItem` | main.js:90-91 | `removeItem` deletes the key, and every other key keeps its value |
| `Accounts.SignUp` | main.js:170-186 | the sign-up submit handler on the store: trims username and e-mail, refuses an empty field, then a taken `user_<name>`, else writes the record `{username, email, password}`; the lemmas below state its outcome and writes |
| `Accounts.SignUpRefusalWritesNothing` | main.js:176-183 | with an empty trimmed username or e-mail, or an empty password, the outcome is "missing field"; with a taken `user_<trimmed name>`, it is "username taken"; either way the store is unchanged |
| `Accounts.SignUpAddsExactlyOneKey` | main.js:172-186 | sign-up succeeds exactly when all fields are present and `user_<trimmed name>` is absent; it then adds exactly that key, holding the trimmed name and e-mail and the untrimmed password, and every other key keeps its value |
| `Accounts.SignUpKeepsWellFormed` | main.js:185-186 | sign-up keeps the store well formed |
| `Accounts.SecondSignUpIsRefused` | main.js:180-183 | after a successful sign-up, a second sign-up under the same trimmed name is refused as taken and writes nothing |
| `Accounts.SubmitSignUp` | main.js:170-190 | the sign-up submit handler performs exactly the writes of `SignUp` and keeps the store well formed |
| `Accounts.IsChallenge` | main.js:227-233 | a challenge text: five characters from the generator's alphabet, which leaves out the look-alikes I, O, i, l, o, 0 and 1 |
| `Accounts.RedirectTarget` | main.js:284 | the `redirect` query parameter with `'X-15-Website.html'` as the fallback: the parameter when present and non-empty, else the home page |
| `Accounts.PasswordMatches` | main.js:281-282 | the record stored under the typed name has exactly the typed password |
| `Accounts.SignIn` | main.js:264-290 | the sign-in submit handler on the store: challenge check, lookup of `user_<typed name>`, password comparison, then the session write and the redirect target; `SignInSetsSessionOnlyOnMatch` states its outcomes |
| `Accounts.SignInSetsSessionOnlyOnMatch` | main.js:264-290 | sign-in sets `loggedInUser` to the typed name exactly when the challenge is passed, `user_<name>` holds a record, and that record's password equals the typed one; the redirect target is the `redirect` parameter or the home page; otherwise nothing is written. The outcome is "captcha required" exactly when the challenge is not passed; with the challenge passed, a missing record or a wrong password gives "invalid username or password" |
| `Accounts.SignInKeepsWellFormed` | main.js:283 | sign-in keeps the store well formed |
| `Accounts.SignUpThenSignIn` | main.js:185-186 | after a successful sign-up, signing in with the trimmed name and the same password succeeds and sets the session to that name |
| `Accounts.PaddedNameOnlySignsInTrimmed` | main.js:266 | an account created as " alice " signs in as "alice" but not as " alice ", because sign-in does not trim |
| `Accounts.SignInPage.constructor` | main.js:201-207 | the page starts with the box unticked, no challenge text, the challenge hidden and not passed |
| `Accounts.SignInPage.TickRobotBox` | main.js:209-225 | the first tick of the unticked box shows the fresh challenge text, unless the challenge is already passed; later ticks change nothing |
| `Accounts.SignInPage.Verify` | main.js:244-252 | input equal to the current challenge text (empty before the first challenge) marks the challenge passed and hides it; any other input keeps the passed flag and shows a new challenge text; no precondition on the challenge being on screen |
| `Accounts.VerifyBeforeChallenge` | main.js:207-252 | on a freshly loaded page, a verify click with an empty input, before any challenge is shown, passes the challenge, because the handler compares against the initial empty text |
| `Accounts.SignInPage.Submit` | main.js:264-290 | the sign-in submit handler performs exactly the writes of `SignIn`, gated by the page's passed flag, and keeps the store well formed |
| `Accounts.ProfileSubmit` | main.js:408-433 | `processUpdate` on the store and the page's user object: refuses a taken new name, otherwise updates the object, saves it under the final name, and on a rename removes the old record and moves the session; the lemmas below state its outcomes |
| `Accounts.SavedFields` | main.js:421-425 | the saved object holds the final name and the trimmed description, the uploaded picture only when one was given, and the rest of the loaded object |
| `Accounts.ProfileTakenNameChangesNothing` | main.js:411-416 | a non-empty new name that differs from the page's name and is already taken leaves every key, the session and the page's user object unchanged |
| `Accounts.ProfileRenameRekeys` | main.js:409-433 | a rename to a free name saves the object under `user_<new>` and removes `user_<old>`. The saved object has username = new, the trimmed description, and an uploaded picture only when one was given. The session becomes the new name, and every other key keeps its value |
| `Accounts.ProfileEditInPlace` | main.js:409-432 | with no new name, or the current one, only `user_<current>` is rewritten (same fields rule); the session and every other key are unchanged |
| `Accounts.ProfileKeepsWellFormed` | main.js:428-433 | a profile submit keeps the store well formed |
| `Accounts.ProfileSessionFollowsFinalName` | main.js:428-433 | if the page's name is the session name, then after a save the session is the final name and the record under it is the saved object; after a refusal the session is unchanged |
| `Accounts.StaleNameRestoresOldRecord` | main.js:363 | as written, after renaming alice to bob, a second save writes `user_alice` back next to `user_bob` while the session stays "bob" |
| `Accounts.TrackedRenameThenEditKeepsOneRecord` | main.js:430-433 | when the page takes on the final name after a rename, a following edit leaves `user_<old>` absent, the record under the new name, and the session on the new name |
| `Accounts.ProfileEditor.constructor` | main.js:363-379 | the page holds the session name it read at start-up, and the stored object under that name (or `{}` if missing) |
| `Accounts.ProfileEditor.Submit` | main.js:400-450 | `processUpdate` as written performs exactly the writes of `ProfileSubmit` for the start-up name, updates the page's user object, and keeps the store well formed |
| `Accounts.TrackingProfileEditor.constructor` | main.js:363-379 | the corrected page starts with its name equal to the session name |
| `Accounts.TrackingProfileEditor.Submit` | main.js:408-439 | the corrected handler performs the writes of `ProfileSubmit`, then holds the final name, so its name stays equal to the session name |
| `Accounts.Logout` | main.js:66 | `removeItem('loggedInUser')` (likewise main.js:148) |
| `Accounts.DeleteAccount` | main.js:88-91 | on a confirmed dialog, `removeItem('user_' + name)` then `removeItem('loggedInUser')`; on a cancelled one, nothing |
| `Accounts.LogoutRemovesOnlySession` | main.js:66 | log-out removes `loggedInUser` and no other key; afterwards no one is signed in and the chat log is unchanged |
| `Accounts.DeleteRemovesRecordAndSession` | main.js:88-95 | a confirmed delete removes exactly `user_<name>` and `loggedInUser`, and every other key keeps its value; a cancelled one removes nothing |
| `Accounts.LogoutAndDeleteKeepWellFormed` | main.js:90-91 | log-out and delete keep the store well formed |
| `Accounts.AccountControls.constructor` | main.js:60-61 | the buttons act on the session name read when they were set up |
| `Accounts.AccountControls.LogOut` | main.js:65-68 | the log-out buttons (settings panel, and the home page banner at main.js:147-150) perform exactly `Logout` |
| `Accounts.AccountControls.Delete` | main.js:88-95 | the delete-account button performs exactly `DeleteAccount` for the set-up name and the dialog's answer |
| `Accounts.AccountStepsKeepChatLog` | main.js:186 | sign-up, sign-in, profile saves and account deletion leave the chat log unchanged |
| `Chat.ChatSend` | main.js:499-513 | the chat submit handler on the store: drops a message that is empty after trimming, else appends `{username, text, pfp, timestamp}` to the log and writes it back; the lemmas below state its effect |
| `Chat.BlankMessageIsDropped` | main.js:501-502 | a message made only of white space leaves the store unchanged |
| `Chat.SendAppendsOneMessage` | main.js:501-513 | any other message grows the log by exactly one entry at the end, with the page's name, the trimmed text, the page's picture and the timestamp; earlier entries and every other key keep their values |
| `Chat.SendKeepsRecordsAndSession` | main.js:512-513 | sending keeps the store well formed and leaves every user record and the session unchanged |
| `Chat.ChatPage.constructor` | main.js:458-468 | the page holds the session name and that user's picture as read at start-up |
| `Chat.ChatPage.Send` | main.js:499-517 | the chat submit handler performs exactly `ChatSend` for the start-up name and picture, and keeps the store well formed |
| `Category.SearchMatch` | main.js:581 | a card matches the search when its lower-cased text includes the lower-cased term |
| `Category.TagMatch` | main.js:593-594 | a card matches a tag filter when one of its trimmed tags, lower-cased, includes the lower-cased filter text |
| `Category.AnyVisible` | main.js:583 | some card is not hidden, which is what `hasVisibleCards` records |
| `Category.NoResultsHiddenAsWritten` | main.js:585 | the message rule as written: `toggle('hidden', !hasVisibleCards)` hides the message exactly when no card is shown |
| `Category.SearchIgnoresCase` | main.js:578-581 | whether a card matches does not change when the term or the card text is lower-cased first; the empty term matches every card |
| `Category.TagFilterIgnoresCase` | main.js:594 | whether a card matches does not change when the filter text is lower-cased first |
| `Category.ClickedTagKeepsItsCard` | main.js:619-621 | filtering by one of a card's own trimmed tags keeps that card shown; a card without tags matches no filter |
| `Category.AsWrittenMessageIsInverted` | main.js:585 | as written, the no-results message is hidden when nothing matches and shown when something does |
| `Category.CategoryPage.constructor` | main.js:571-574 | the page starts with every card shown, the message hidden and no active filter |
| `Category.CategoryPage.Search` | main.js:577-586 | card i is hidden exactly when its lower-cased text does not contain the lower-cased term; the message is hidden exactly when some card is shown (corrected rule) |
| `Category.CategoryPage.ApplyTagFilter` | main.js:589-600 | the search bar is cleared. Card i is hidden exactly when none of its trimmed tags contains the filter text, case-insensitively, whatever was hidden before. The message is hidden exactly when some card is shown (corrected rule), and the badge shows the filter |
| `Category.CategoryPage.ClickTag` | main.js:619-621 | a tag click filters by the tag's trimmed text |
| `Category.CategoryPage.ClearTagFilter` | main.js:602-606 | every card is shown, the message is hidden and the badge is cleared; the search bar keeps its value |
| `Category.FilterReplacesThenClearRestores` | main.js:589-606 | after filtering by one tag and then another, card i is hidden exactly when it does not match the second tag, whatever the first did; clearing then shows every card |

## Left out

- Rendering: the HTML written into the page, alerts, the shake and loading animations, and the timers behind them. Card visibility is kept only as an array of flags.
- Navigation: the page changes after sign-up, sign-in, log-out and delete, and the access check on protected pages. The sign-in redirect target itself is modelled (`Authenticated(target)` with `RedirectTarget`); the navigation to it is not. The page objects of the profile, chat and settings pages are built only for a signed-in session; the redirect taken otherwise is not modelled.
- The random challenge text. It is an argument of `TickRobotBox` and `Verify`, required to be five characters of the generator's alphabet.
- `FileReader`. The uploaded picture is an optional string argument of the profile submit.
- The clock. The chat timestamp is an opaque string argument, and its display formatting is left out.
- The contact form's `fetch` to `/send-email`, because it is network input/output.
- Clipboard copy, example toggles, back-to-top scrolling and page animations, because they are browser user-interface calls with no state in the store.
- The theme toggle and the bootstrap that picks the page controller. They are styling and dispatch; the key `theme` is one of the keys every frame lemma leaves unchanged.
- JSON encoding. Stored values are datatypes. An absent `chat_messages` key reads as the empty list, as `|| '[]'` makes it.
- Cross-tab `storage` events and concurrent writers, because they involve concurrency between tabs.
- `Strings.LowerChar`: lower-cases only the ASCII and Latin-1 capitals. The other Unicode case mappings of `toLowerCase` are not modelled, including those that change the length, such as U+0130 becoming two code points.
- `Strings.ToLower`: applies `LowerChar` one character at a time, so it has the same gap: case mappings outside ASCII and Latin-1, and mappings that change the length, are not modelled.
- `Strings.ToLowerIdempotent`: keeping the length and idempotence are proved for this ASCII/Latin-1 lower-casing, not for full Unicode `toLowerCase`. The length result is false for full Unicode.

- `Store.LocalStore.SetItem`: every `setItem` is modelled as succeeding. The browser's `setItem` throws `QuotaExceededError` once the origin's storage is full, and the source makes that reachable:
  - an uploaded picture is stored as a data URL with no size check (main.js:424);
  - each chat message copies the picture (main.js:508);
  - the chat log is never trimmed.
  Two handlers then stop part-way:
  - chat send throws at the write of main.js:513, so the message is lost and main.js:515-516 never run. `Chat.ChatSend`, `Chat.SendAppendsOneMessage` and `Chat.ChatPage.Send` describe only the successful write.
  - profile save has already changed the page's user object (main.js:421-425) when the write at main.js:428 throws, so the page object and the store disagree. `Accounts.ProfileSubmit`, `Accounts.ProfileEditor.Submit` and `Accounts.TrackingProfileEditor.Submit` describe only the successful write.
  Sign-up (main.js:186) and sign-in (main.js:283) would also simply stop with nothing written.

## Findings

| source | as written | input that shows it | evidently intended | confidence | as-written member | corrected member |
|---|---|---|---|---|---|---|
| main.js:585 | `noResultsMessage.classList.toggle('hidden', !hasVisibleCards)` hides the no-results message when no card is shown, and shows it when some card is. The tag filter does the same at main.js:598 | one card "Rust" tagged "Rust", search term "python": no card is shown and the message is hidden; search term "": the card is shown together with the message | the message is hidden exactly when some card is shown, as `clearTagFilter` (main.js:604) assumes | high (not executed) | `Category.NoResultsHiddenAsWritten`, `Category.AsWrittenMessageIsInverted` | `Category.CategoryPage.Search`, `Category.CategoryPage.ApplyTagFilter` |
| main.js:363 | the profile page keeps the name it read at start-up, and `processUpdate` (main.js:409, main.js:430) never updates it after a rename | rename alice to bob, then save again with the new-name field empty: `user_alice` is written back next to `user_bob`, and the session stays "bob" | after a rename the page continues as the new user | high (not executed) | `Accounts.ProfileEditor.Submit`, `Accounts.StaleNameRestoresOldRecord` | `Accounts.TrackingProfileEditor.Submit`, `Accounts.TrackedRenameThenEditKeepsOneRecord` |
