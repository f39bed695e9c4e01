# Social-feed client: form checks, feed dialog and profile page

The client is a set of React pages that call a REST backend. Three pages hold
logic that can be stated without the network, and this project models them
in Dafny:

- **Registration** (`join.dfy`, module `Registration`). The local id checks behind the
  duplicate-check button. The password, confirm, name, nickname, email and phone
  checks. The rule that colours the password message. Each check is a pure function
  that gives the message it writes. The class `JoinForm` holds the message fields and
  the text of the inputs that handlers read back: id, password and confirm.
- **Feed** (`feed.dfy`, module `FeedPage`). The class `FeedView` holds the fetched list
  and the detail dialog: open flag, selected item, local comment list and comment draft.
- **Profile** (`mypage.dfy`, module `ProfilePage`). The thumbnail address of a post
  card. The class `ProfileView` holds the counts, the loading flag, the post list and
  the view switch.

Two small modules are shared by the pages:

- `chars.dfy`, module `Chars`: the regex character classes. The special set is
  `! @ # $ % ^ & * ( ) _ + = [ ] { } ; ' : " \ | , . < > ?`. It contains `_`.
  It does not contain `-`, `/`, `~`, the backtick or the space.
- `jsstring.dfy`, module `JsString`: `trim`, `includes` and `split`, written out.

Backend calls appear only as their outcomes, passed in as parameters.
The duplicate-id answer is an `IdReply`: answered with a "taken" flag, or failed.
Every other call's outcome is a `Response<T>`: succeeded with a payload, unsuccessful, or threw.

A string is a `seq<char>`. Each `char` stands for one UTF-16 code unit, so `|s|` is
JavaScript's `s.length`. White space is JavaScript's set, the one `\s` matches and
`trim` removes, written out in `Chars.IsJsWhitespace`.

Some behaviours of the code worth stating plainly:

- A failed feed fetch leaves the current list unchanged. It does not empty the list.
- Opening the dialog fetches no comments. Comments exist only in the local list.
- The id `"ab1!"` is rejected for its length, which is tested first, not for its `!`.
- The duplicate check awaits the server. Its reply is applied to the messages whenever it
  arrives, so "available" can be shown beside an id typed after the click.

## Model

| member | source | states |
|---|---|---|
| `Chars.SpecialSetMembers` | src/component/Join.js:36 | `_`, `@`, `.` and `\` are special; `-`, `~`, space, `/`, backtick and Hangul are not |
| `JsString.Trim` | src/component/Feed.js:66 | `trim()` is empty exactly when every character is JavaScript white space; a non-empty result starts and ends with non-white space |
| `JsString.IncludesNeedsFirstChar` | src/component/Join.js:224 | a non-empty text cannot be included in a string that lacks its first character |
| `JsString.Split` | src/component/MyPage.js:167 | `split(',')` always gives at least one piece, and no piece contains the separator |
| `JsString.SplitJoinRoundTrip` | src/component/MyPage.js:167 | joining the pieces of `split` with the separator gives back the original string |
| `JsString.SplitFirstPiece` | src/component/MyPage.js:167 | the first piece is a prefix of the string that ends at the string's end or at the first separator |
| `Registration.LocalIdCheck` | src/component/Join.js:34-52 | the checks run in order: "too short" iff length < 6; "special character" iff length ≥ 6 and some special character; "letter and digit" iff length ≥ 6, no special character and not both an ASCII letter and an ASCII digit; passed iff none of these |
| `Registration.CheckIdOutcome` | src/component/Join.js:31-70 | "available" is shown iff the id passes the local checks and the server says it is not taken; exactly one of error/available is non-empty; each local failure gives its own message; a passing id gets the taken message when the server says taken and the server-error message when the request throws |
| `Registration.ShortIdReportedForLength` | src/component/Join.js:38-47 | `"ab1!"` is rejected for its length, not for the `!` |
| `Registration.UnderscoreIdRejected` | src/component/Join.js:36-47 | every id of length ≥ 6 with a `_` anywhere fails the special-character test and gets its message |
| `Registration.HyphenIdPasses` | src/component/Join.js:34-52 | `"ab-cd12"` passes all local checks: `-` is not special |
| `Registration.LettersOnlyIdNotMixed` | src/component/Join.js:48-52 | `"abcdef"` fails the letter-and-digit test |
| `Registration.PwdMessage` | src/component/Join.js:73-86 | an empty password writes nothing; a non-empty one gets "usable" iff length ≥ 6 with an ASCII letter, an ASCII digit and a special character; 1–5 characters give the too-short message; 6 or more without the three kinds of character give the combination message |
| `Registration.PwdDisplay` | src/component/Join.js:224 | the password line is hidden iff the message is empty; a message starting with `사용 가능한` is green; a message without the character `사` is never green |
| `Registration.OnlyUsableIsGreen` | src/component/Join.js:224 | of the three password messages only the "usable" one contains `사용 가능한`, so only it is green; none is hidden |
| `Registration.PwdGreenIffStrong` | src/component/Join.js:73-86 | a non-empty password's message is drawn green iff the password is strong |
| `Registration.PwdCheckMessage` | src/component/Join.js:88-94 | the mismatch message is set iff the password differs from the confirm text |
| `Registration.NameMessage` | src/component/Join.js:96-107 | a name is accepted (empty message) iff length ≥ 2 and it has no ASCII digit and no special character; a short name gets the length message, a long enough rejected one the character message |
| `Registration.NikNameMessage` | src/component/Join.js:109-120 | a nickname is accepted iff length ≥ 2 and every character is in `[A-Za-z0-9_-]`; a short one gets the length message, a long enough rejected one the character message |
| `Registration.NikNameTestsCoincide` | src/component/Join.js:110-115 | the nickname test `hasSpecialChar or not hasEnglish` is the same as `hasSpecialChar` alone |
| `Registration.EmailMessage` | src/component/Join.js:122-129 | the email message is empty iff the text matches `^\S+@\S+\.\S+$` |
| `Registration.EmailAcceptsParts` | src/component/Join.js:123 | every `a@b.c` with non-empty, white-space-free `a`, `b`, `c` matches the email pattern |
| `Registration.EmailParts` | src/component/Join.js:123 | every match has no white space and splits as `a@b.c` with `a`, `b`, `c` non-empty |
| `Registration.EmailRejectsWhitespace` | src/component/Join.js:123 | a text with a white-space character anywhere never matches the email pattern |
| `Registration.EmailExamples` | src/component/Join.js:122-129 | `"a@b"` and `"a b@c.d"` are rejected; `"me@mail.com"` is accepted |
| `Registration.PhoneMessage` | src/component/Join.js:131-138 | the phone message is empty iff the text is exactly 10 or 11 ASCII digits |
| `Registration.PhoneRejectsHyphen` | src/component/Join.js:131-138 | any number containing `-` is rejected |
| `Registration.JoinForm.constructor` | src/component/Join.js:8-15 | every message and input starts empty, and the form invariant holds |
| `Registration.JoinForm.EditId` | src/component/Join.js:196-205 | editing the id changes the field text and clears "available"; the form invariant is kept |
| `Registration.JoinForm.HandleCheckId` | src/component/Join.js:31-56 | the id is sent to the server iff it passes the three local checks, and then the messages wait unchanged; a rejected id gets its local message and "available" is cleared |
| `Registration.JoinForm.ReceiveIdReply` | src/component/Join.js:56-70 | the settled request shows "taken", "available" or the server error; "available" is shown iff the server says not taken |
| `Registration.JoinForm.CheckIdSettled` | src/component/Join.js:31-70 | a click whose reply lands before the id is edited leaves exactly `CheckIdOutcome` of the id and reply; "available" is then shown only for a well-formed id |
| `Registration.JoinForm.ValidatePwd` | src/component/Join.js:73-86 | an empty password leaves the message unchanged; otherwise the message becomes `PwdMessage` |
| `Registration.JoinForm.ValidatePwdCheck` | src/component/Join.js:88-94 | the confirm message compares the password field with the given text |
| `Registration.JoinForm.EditPwd` | src/component/Join.js:211-221 | typing a password rechecks it and rechecks the confirmation against the new password; the mismatch error is then set iff the two differ |
| `Registration.JoinForm.EditPwdCheck` | src/component/Join.js:225-234 | typing the confirmation sets the mismatch error iff it differs from the password field |
| `Registration.JoinForm.PwdLineGreenIffStrong` | src/component/Join.js:224 | in any reachable state with a non-empty password field, the password line is green iff that password is strong |
| `Registration.JoinForm.ValidateName` | src/component/Join.js:96-107 | the name message becomes `NameMessage` of the input |
| `Registration.JoinForm.ValidateNikName` | src/component/Join.js:109-120 | the nickname message becomes `NikNameMessage` of the input |
| `Registration.JoinForm.ValidateEmail` | src/component/Join.js:122-129 | the email message becomes `EmailMessage` of the input |
| `Registration.JoinForm.ValidatePhone` | src/component/Join.js:131-138 | the phone message becomes `PhoneMessage` of the input |
| `FeedPage.FeedView.constructor` | src/component/Feed.js:29-33 | empty list, dialog closed, nothing selected, no comments, empty draft |
| `FeedPage.FeedView.FetchFeeds` | src/component/Feed.js:39-50 | a successful reply replaces the list wholesale; an unsuccessful or thrown call leaves it unchanged |
| `FeedPage.FeedView.HandleClickOpen` | src/component/Feed.js:52-57 | opening selects the item and opens the dialog, leaving comments and draft empty whatever the prior state |
| `FeedPage.FeedView.HandleClose` | src/component/Feed.js:59-63 | closing closes the dialog, clears the selection and comments, and keeps the draft |
| `FeedPage.FeedView.HandleAddComment` | src/component/Feed.js:65-70 | a blank draft changes nothing; otherwise exactly one comment `{currentUser, draft}` is appended with the untrimmed draft, earlier comments are kept and the draft is cleared |
| `FeedPage.FeedView.EditDraft` | src/component/Feed.js:145-151 | editing the draft changes only the draft |
| `ProfilePage.ThumbnailPath` | src/component/MyPage.js:167 | the chosen path is non-empty and never contains a comma; a missing list gives the default |
| `ProfilePage.ThumbnailIsFirstPath` | src/component/MyPage.js:167 | for a present list the path is the text before the first comma, or the default when that text is empty |
| `ProfilePage.ThumbnailExamples` | src/component/MyPage.js:167 | `",b.jpg"` and `""` fall back to `default-image-url.jpg` |
| `ProfilePage.ImageSrc` | src/component/MyPage.js:167 | the image address is `http://localhost:3100/` followed by the chosen path, and contains no comma |
| `ProfilePage.ProfileView.constructor` | src/component/MyPage.js:7-12 | zero counts, loading, no posts, view `myPosts` |
| `ProfilePage.ProfileView.LoadProfile` | src/component/MyPage.js:15-42 | with no token nothing changes and loading stays true; with one, follower/following counts become the list lengths only on success, the post count is taken only on success, the my-posts request starts unless a call threw, and loading ends in every case |
| `ProfilePage.ProfileView.ReceivePosts` | src/component/MyPage.js:44-69 | a successful post listing replaces the posts; a failed or thrown one leaves them |
| `ProfilePage.ProfileView.HandleViewChange` | src/component/MyPage.js:70-77 | the view becomes `t`; my posts are fetched iff `t == "myPosts"`, liked posts otherwise |

## Left out

- Registration submit (`fnJoin`): it posts the form without looking at any check result, so there is no gate to model.
- Login, feed upload, routing and the side menu: they only store a token, assemble form data and navigate.
- Token decoding: the decoded id only fills the request addresses, which are not modelled.
- `ProfilePage.ProfileView.LoadProfile` assumes the stored token decodes. A token that fails to decode throws before the `try`, so no request starts and loading stays true; the model does not capture that case.
- Rendering, styling, focus effects and hook scheduling are not modelled.
- The browser's `maxLength` limits on the inputs are not modelled. The checks accept strings of any length.
- The timing of asynchronous replies is not modelled. `fetchMyPosts` is started without being awaited, and its reply, or a reply after a view switch, is applied by `ReceivePosts` at whatever point it arrives. The model does not say which reply arrives last.
- Characters outside the Basic Multilingual Plane count as one code unit here, while JavaScript counts two.
- `Registration.JoinForm.ValidatePwd` does not model its return value (`false` on an empty password). No caller uses it.
- `FeedPage.FeedView.HandleAddComment` does not require the dialog to be open. The page only offers the button inside the open dialog. So "a closed dialog has no comments" holds on the page but is not an invariant of the class.
