# Portfolio Builder: a Dafny model of its core

Portfolio Builder is a Next.js application. Users register and log in with a password and
a bearer token. They create portfolios, then edit each portfolio's sections and projects
in a browser editor. Images go to an S3 bucket. This project models the core of that
system in Dafny and proves what the code promises about it:

- **Credentials and tokens.** `lib/auth.js` hashes passwords with bcrypt and signs and
  verifies JSON web tokens. bcrypt and jsonwebtoken are foreign code, so they are pairs
  of functions passed in (module `Crypto`). The two facts the system relies on are the
  predicates `SoundHasher` and `SoundTokens`: a password verifies against its own digest,
  and a token decodes to the user it was issued for. `Auth.Authenticate` is the bearer
  check every protected route runs.
- **The store.** The MySQL tables are maps from id to row, kept in a class
  `Store.Database`. The class keeps auto-increment counters, the unique email and
  username columns, and the `ON DELETE CASCADE` foreign keys. Its `Valid()` invariant
  says every id lies below its counter, both unique columns hold and every foreign key
  resolves. Every method that changes the store preserves it.
- **The routes.** Register, change-password, delete-account, update-profile and portfolio
  creation change the store, so each is a method on the database. Login and the portfolio
  listing only read the store, so each is a function. Each route's contract gives its
  status codes and error texts in the order the handler checks them, and says what the
  store holds afterwards.
- **The client components.** `EditorWithBackend.jsx`, `ProjectsManager.jsx` and
  `HomeTab.jsx` keep React state that their handlers update step by step. Each becomes a
  class whose methods take the outcome of their API call as a parameter. The list edits
  behind those handlers (map, filter, find, splice) are functions with round-trip and
  idempotence lemmas. `PortfoliosTab.jsx` computes each new list from the old one, so it
  is modelled with functions over a state value.
- **S3.** `lib/s3.js` lazily creates one cached client (class `S3.S3Module`). It builds
  file names from a timestamp, eight random bytes and the original extension, and turns
  keys into public URLs. When it deletes an object, it reads the key back out of that URL.
  The proved round trip says the URL an upload hands out leads a later delete to the same
  key. This holds when the folder and the original file name are printable ASCII that the
  URL parser copies into the path unchanged, and the key has no "." or ".." segment.

The clock, the random bytes, the bcrypt salt, the environment and every network result
are parameters.

Two of the modelled routes are written against a Prisma client:
`app/api/auth/change-password/route.js` and `app/api/auth/update-profile/route.js`.
`lib/db.js` exports only a raw MySQL `query`, and its `users` table has no `username`
column and its name for the digest column is `password`. The model follows the code of
each route. It gives the users row a `username` and reads the digest from the same column
in every route. The `sections` table is used by the sections route but not created in
`lib/db.js`. The model gives it the same cascading foreign key to `portfolios` that
`projects` has in `lib/db.js`.

## Model

| member | source | states |
|---|---|---|
| Crypto.VerifyToken | lib/auth.js:22-28 | the claims when the token verifies, None for every kind of failure |
| Crypto.VerifyIssuedToken | lib/auth.js:14-28 | a token signed for user u verifies to `{ userId: u }` |
| Crypto.VerifyFailuresAlike | lib/auth.js:23-27 | a bad signature, an expired token and a malformed token all give the same null |
| Auth.Authenticate | lib/auth.js:30-52 | None without a `Bearer ` header. Some exactly when the token verifies and its user id has a row. The caller returned is that row without its password |
| Auth.AuthenticateIssuedToken | lib/auth.js:30-52 | `Bearer <generateToken(u)>` authenticates u while u's row exists |
| Auth.DeletedUserCannotAuthenticate | lib/auth.js:46-51 | once a user's row is gone, no header authenticates that user |
| Store.PutKeepsUnique | lib/db.js:42 | storing a row whose email and username clash with no other row keeps both columns unique |
| Store.FindByEmail | app/api/auth/login/route.js:17-20 | the row with that email, or None when no row has it |
| Store.FindByUsername | app/api/auth/update-profile/route.js:28-30 | the row with that username, or None when no row has it |
| Store.DropOwnedBy | lib/db.js:65 | the portfolios left after deleting a user: exactly those of other owners, unchanged |
| Store.DropOrphans | lib/db.js:85 | the child rows left: exactly those whose portfolio survives, unchanged |
| Store.CascadeReachesOnlyOwner | lib/db.js:65 | a child row is removed by the two cascades exactly when its portfolio belonged to the deleted user |
| Store.Database.constructor | lib/db.js:38-87 | empty tables satisfying the invariant |
| Store.Database.InsertUser | app/api/auth/register/route.js:31-34 | the row is stored under the next id, which was free; other tables unchanged; the invariant is kept |
| Store.Database.UpdateUser | app/api/auth/update-profile/route.js:40-50 | that one row is replaced, the invariant is kept |
| Store.Database.DeleteUser | app/api/auth/delete-account/route.js:41-44 | the user's row, the user's portfolios and those portfolios' sections and projects are removed; the invariant is kept |
| Store.Database.InsertPortfolio | app/api/portfolios/route.js:61-74 | the row is stored under the next id, which was free; the invariant is kept |
| Register.Post | app/api/auth/register/route.js:4-39 | 400 "All fields are required" if a field is falsy. 400 "User already exists" if the email has a row. Otherwise 201 with the new id, and a row holding the digest of the password; it is the only row with that email. Error paths leave the store unchanged |
| Login.Post | app/api/auth/login/route.js:4-49 | 400 when a field is falsy. An unknown email and a wrong password give the same 401 "Invalid credentials". A 200 reply carries a token for the row with that email whose digest matches, and the row without its password |
| Login.WrongPasswordLikeUnknownEmail | app/api/auth/login/route.js:22-38 | a wrong password for a known email gets exactly the answer that email would get with its row removed |
| Login.WithoutPasswordKeepsTheRest | app/api/auth/login/route.js:44 | the reply drops only the password: adding the digest back gives the row |
| Login.LoginWithRegisteredPassword | app/api/auth/login/route.js:32-49 | the registered password logs in, and the token returned authenticates that user |
| ChangePassword.Put | app/api/auth/change-password/route.js:5-59 | in order: 401, 400 for missing fields, 400 for fewer than 8 UTF-16 units, 400 for a wrong current password, each leaving the store unchanged. Otherwise only the caller's digest changes |
| ChangePassword.NewPasswordVerifies | app/api/auth/change-password/route.js:50-55 | after a change the new password verifies against the stored digest |
| ChangePassword.AstralCharactersCountTwice | app/api/auth/change-password/route.js:27 | `length` counts UTF-16 units: four emoji pass the 8-character rule |
| DeleteAccount.Delete | app/api/auth/delete-account/route.js:5-48 | 401, 400 without password, 400 "Incorrect password", each leaving the store unchanged. Otherwise the cascade runs; every other user and every other user's portfolio is kept; the deleted user can no longer authenticate |
| UpdateProfile.Put | app/api/auth/update-profile/route.js:5-55 | 401; 400 when name or username is falsy; 400 "Username is already taken" when another user holds it; each leaving the store unchanged. Otherwise the caller's row gets the name and username and the reply is that row without its digest |
| UpdateProfile.OwnUsernameNotTaken | app/api/auth/update-profile/route.js:32 | re-submitting one's own username is never "taken" |
| Portfolios.ReadColumn | app/api/portfolios/route.js:25-27 | a stored JSON column reads back as the value stored, NULL as the replacement |
| Portfolios.View | app/api/portfolios/route.js:23-28 | NULL personal info and social links become null, NULL skills becomes `[]`, stored values come back, the other columns are copied |
| Portfolios.Get | app/api/portfolios/route.js:4-30 | 401 "Unauthorized" without a valid token. Otherwise 200 with exactly the caller's portfolios, each as View shows it |
| Portfolios.NewRow | app/api/portfolios/route.js:52-73 | the caller is the owner, falsy JSON fields default to `{}`, `{}`, `[]`, an absent theme to "default", unpublished and no custom domain |
| Portfolios.Post | app/api/portfolios/route.js:40-89 | 401 leaves the store unchanged. Otherwise NewRow is inserted under the next id and returned with 201 as read back |
| Portfolios.CreatedHasNoNulls | app/api/portfolios/route.js:69-71 | a created portfolio never reads back with a null JSON field |
| Portfolios.CreatedIsListed | app/api/portfolios/route.js:15-28 | the creator's next listing shows the portfolio exactly as created; another user's does not |
| Portfolios.CreateHidesFromOthers | app/api/portfolios/route.js:15-19 | creating a portfolio leaves every other user's listing unchanged |
| ProjectsManager.FormatTechnologies | components/ProjectsManager.jsx:50 | no list gives "", a one-entry list gives that entry |
| ProjectsManager.TrimAndDropEmpty | components/ProjectsManager.jsx:81-82 | every entry kept is non-empty, trimmed, and the trim of an input piece; every piece whose trim is not empty is kept |
| ProjectsManager.TrimAndDropEmptyOne | components/ProjectsManager.jsx:81-82 | one piece gives its trim, or nothing when that is empty |
| ProjectsManager.TrimAndDropEmptyConcat | components/ProjectsManager.jsx:81-82 | the entries kept from two runs of pieces are those of the first, then those of the second |
| ProjectsManager.ParseTechnologies | components/ProjectsManager.jsx:79-82 | every technology saved is non-empty, trimmed and free of commas; every comma-separated piece that is not blank is saved, trimmed |
| ProjectsManager.ParseTechnologiesOne | components/ProjectsManager.jsx:79-82 | text without a comma saves its trim, or nothing when it is blank |
| ProjectsManager.ParseTechnologiesConcat | components/ProjectsManager.jsx:79-82 | the technologies of `a,b` are those of `a`, then those of `b`: entries keep the order they were typed in |
| ProjectsManager.ParseFormatRoundTrip | components/ProjectsManager.jsx:50 | saving an unedited technologies field returns the project's list, the empty list included, for entries that are non-empty, trimmed and comma-free |
| ProjectsManager.BlankEntryDropped | components/ProjectsManager.jsx:79-82 | a whitespace-only entry between commas is dropped on save |
| ProjectsManager.FormFor | components/ProjectsManager.jsx:44-67 | the form of an existing project takes its fields, missing ones as "" or false; a new project gets the empty form |
| ProjectsManager.ToProjectData | components/ProjectsManager.jsx:77-83 | the form as typed, with technologies parsed |
| ProjectsManager.OpenThenSaveKeepsProject | components/ProjectsManager.jsx:44-92 | opening a project and saving it unedited hands back the project's own fields |
| ProjectsManager.ToggleFeatured | components/ProjectsManager.jsx:100-102 | the update for that project carries the negation of its flag |
| ProjectsManager.ToggleFeaturedTwice | components/ProjectsManager.jsx:100-102 | a second toggle sends the original flag back |
| ProjectsManager.Delete | components/ProjectsManager.jsx:94-98 | a delete is sent exactly when the user confirms |
| ProjectsManager.ProjectDialog.constructor | components/ProjectsManager.jsx:32-42 | closed, nothing being edited, the empty form |
| ProjectsManager.ProjectDialog.Open | components/ProjectsManager.jsx:44-69 | open, editing the given project, its form filled by FormFor |
| ProjectsManager.ProjectDialog.Edit | components/ProjectsManager.jsx:213-264 | the form holds what was typed |
| ProjectsManager.ProjectDialog.Close | components/ProjectsManager.jsx:71-74 | closed, nothing being edited |
| ProjectsManager.ProjectDialog.Save | components/ProjectsManager.jsx:76-92 | callable only with a title, as the Save button is disabled without one (line 275); an update of the edited project or an add, carrying the parsed form; then closed with the form kept |
| Editor.ToUi | components/EditorWithBackend.jsx:43-53 | a card of 600 by 250. The title falls back to "Untitled Section". Archived is the negation of visible. The content and images come from a string or an object |
| Editor.ToUiAll | components/EditorWithBackend.jsx:43 | one card per loaded section, in order |
| Editor.Merge | components/EditorWithBackend.jsx:119 | the changed fields are taken from the changes, all others kept |
| Editor.MergeIdempotent | components/EditorWithBackend.jsx:119 | merging the same changes twice equals merging once |
| Editor.UpdateById | components/EditorWithBackend.jsx:118-120 | cards with the id are merged, every other card kept in place |
| Editor.UpdateByIdIdempotent | components/EditorWithBackend.jsx:118-120 | repeating an update leaves the board as the first one did |
| Editor.BuildPatch | components/EditorWithBackend.jsx:123-132 | the title when given; the visibility as the negation of archived; the content when content or images change, its other half from the stored card. It throws (None) exactly when only one half changes and no card has the id; with both halves given, the patch goes out without reading the card |
| Editor.PatchMatchesBoard | components/EditorWithBackend.jsx:117-132 | the patch sent carries the content, images and visibility the board now shows for that card |
| Editor.Resize | components/EditorWithBackend.jsx:165-173 | the cards with the id take the new size, every other card is kept |
| Editor.Stored | components/EditorWithBackend.jsx:189 | what `sectionAPI.create` stores, as the sections route's create handler (app/api/portfolios/[id]/sections/route.js, lines 115-124) writes it: the stored section keeps type, order, visibility and content; a non-empty title is kept |
| Editor.Echo | components/EditorWithBackend.jsx:189-199 | the `response.section` read here, as the sections route's create handler (app/api/portfolios/[id]/sections/route.js, lines 126-131) answers it for a request with a non-empty title: it carries the sent title, type and order, and its title is the one Stored keeps |
| Editor.NewSectionRequest | components/EditorWithBackend.jsx:86-93 | "Section n" at order n, n = cards + 1, custom, empty, visible |
| Editor.NewCard | components/EditorWithBackend.jsx:98-108 | the created row's id, title, type and order, empty, not archived, 600 by 250 |
| Editor.AddedCardMatchesReload | components/EditorWithBackend.jsx:85-115 | an added card is what the next load shows for it |
| Editor.NewSectionTitlesDiffer | components/EditorWithBackend.jsx:86-89 | boards of different sizes add sections with different titles |
| Editor.DuplicateRequest | components/EditorWithBackend.jsx:179-185 | the copy keeps type, content and visibility, title gets " (copy)", order + 1 |
| Editor.CopyCardAsWritten | components/EditorWithBackend.jsx:190-200 | the copy's card as written: never archived |
| Editor.CopyOfArchivedShownUnarchived | components/EditorWithBackend.jsx:184-197 | the copy of an archived card is stored hidden but shown unarchived |
| Editor.CopyCard | components/EditorWithBackend.jsx:190-200 | the copy's card, archived exactly when the original is |
| Editor.CopyCardMatchesReload | components/EditorWithBackend.jsx:175-200 | the copy's card is what the next load shows for the stored copy, apart from the unstored size |
| Editor.InsertCopy | components/EditorWithBackend.jsx:201-204 | the copy lands right after the first card with the id, every other card in place; an unknown id changes nothing. The copy is the corrected CopyCard (see Findings) |
| Editor.DeleteById | components/EditorWithBackend.jsx:216 | no card with the id remains, every other card does |
| Editor.DeleteOneSection | components/EditorWithBackend.jsx:216 | deleting a card with a unique id keeps the cards before and after it, in order |
| Editor.DeleteUnknownIsNoOp | components/EditorWithBackend.jsx:216 | deleting an absent id leaves the board unchanged |
| Editor.DeleteCopyRestores | components/EditorWithBackend.jsx:201-216 | deleting a fresh copy gives back the board as it was |
| Editor.ToggleArchived | components/EditorWithBackend.jsx:230-232 | the cards with the id flip archived, every other card is kept |
| Editor.ToggleArchivedTwice | components/EditorWithBackend.jsx:230-232 | toggling twice restores the board |
| Editor.ReplaceProject | components/EditorWithBackend.jsx:255 | projects with the id become the server's answer, all others are kept |
| Editor.DeleteProjectById | components/EditorWithBackend.jsx:267 | no project with the id remains, every other one does |
| Editor.DeleteOneProject | components/EditorWithBackend.jsx:267 | deleting a project with a unique id keeps the projects before and after it, in order |
| Editor.EditorState.constructor | components/EditorWithBackend.jsx:13-25 | no portfolio, empty lists, loading, not saving, no error |
| Editor.EditorState.Load | components/EditorWithBackend.jsx:33-64 | the portfolio, its cards and its projects are set one after another. The first failure stops the rest with "Failed to load portfolio: " + message. Loading ends false |
| Editor.EditorState.TitleSave | components/EditorWithBackend.jsx:66-77 | the title sent is the draft title; on success the portfolio takes it and editing ends; on failure the error is set |
| Editor.EditorState.TitleCancel | components/EditorWithBackend.jsx:79-82 | the draft goes back to the saved title, editing ends |
| Editor.EditorState.AddSection | components/EditorWithBackend.jsx:85-115 | sends NewSectionRequest; on success appends NewCard, on failure sets the error |
| Editor.EditorState.UpdateSection | components/EditorWithBackend.jsx:117-140 | the board is updated at once; the patch is BuildPatch of the old board, None where building it throws; a failed request sets the error and asks for a reload |
| Editor.EditorState.SizeCommit | components/EditorWithBackend.jsx:165-173 | the board is resized |
| Editor.EditorState.DuplicateSection | components/EditorWithBackend.jsx:175-210 | an unknown id changes nothing. Otherwise the copy's request is sent. Success inserts the corrected copy card after the original (see Findings); failure sets the error |
| Editor.EditorState.DeleteSection | components/EditorWithBackend.jsx:212-222 | success drops the card, failure sets the error |
| Editor.EditorState.ToggleArchive | components/EditorWithBackend.jsx:224-236 | sends `isVisible` equal to the card's archived flag; success flips the card, failure sets the error |
| Editor.EditorState.AddProject | components/EditorWithBackend.jsx:239-249 | success appends the created project, failure sets the error |
| Editor.EditorState.UpdateProject | components/EditorWithBackend.jsx:251-261 | success replaces the project with the answer, failure sets the error |
| Editor.EditorState.DeleteProject | components/EditorWithBackend.jsx:263-273 | success drops the project, failure sets the error |
| PortfoliosTab.Load | components/dashboard/PortfoliosTab.jsx:49-60 | success replaces the list and clears the error; failure keeps it with "Failed to load portfolios"; loading ends |
| PortfoliosTab.SetPublished | components/dashboard/PortfoliosTab.jsx:65-67 | the cards with the id take the flag, all others kept |
| PortfoliosTab.TogglePublish | components/dashboard/PortfoliosTab.jsx:62-71 | success publishes the cards as the negation of the current status; failure sets "Failed to update portfolio" |
| PortfoliosTab.TogglePublishTwice | components/dashboard/PortfoliosTab.jsx:62-71 | a toggle flips the card and a second toggle restores the state |
| PortfoliosTab.DropPortfolio | components/dashboard/PortfoliosTab.jsx:78 | no card with the id remains, every other one does |
| PortfoliosTab.DeletePortfolio | components/dashboard/PortfoliosTab.jsx:73-82 | declining changes nothing; success drops the cards; failure sets "Failed to delete portfolio" |
| PortfoliosTab.DeleteAbsentIsNoOp | components/dashboard/PortfoliosTab.jsx:78 | deleting an absent id keeps the list |
| PortfoliosTab.DeleteOneCard | components/dashboard/PortfoliosTab.jsx:78 | deleting a card keeps the cards before and after it, in order |
| PortfoliosTab.PublicUrl | components/dashboard/PortfoliosTab.jsx:89 | the link is the origin, "/portfolio/", then the slug |
| PortfoliosTab.PublicUrlInjective | components/dashboard/PortfoliosTab.jsx:230 | different slugs give different links under one origin |
| PortfoliosTab.CopyMessage | components/dashboard/PortfoliosTab.jsx:90-96 | "Link copied to clipboard!" exactly when copying succeeded, else "Failed to copy link" |
| PortfoliosTab.StatusLabel | components/dashboard/PortfoliosTab.jsx:141 | "Published" exactly when published, "Draft" otherwise |
| PortfoliosTab.CountLabel | components/dashboard/PortfoliosTab.jsx:153 | a missing count shows as 0 |
| PortfoliosTab.DescriptionLine | components/dashboard/PortfoliosTab.jsx:148 | the description when truthy, else "No description" |
| HomeTab.Greeting | components/dashboard/HomeTab.jsx:55-60 | morning exactly before 12, afternoon exactly from 12 to before 18, evening exactly from 18 |
| HomeTab.CreateDisabled | components/dashboard/HomeTab.jsx:211 | disabled exactly while creating or when the title is all whitespace |
| HomeTab.CreateError | components/dashboard/HomeTab.jsx:49 | the error's message, or the fallback when it is empty; never empty |
| HomeTab.CreateDialog.constructor | components/dashboard/HomeTab.jsx:26-30 | closed, empty fields, not creating, no error |
| HomeTab.CreateDialog.Open | components/dashboard/HomeTab.jsx:87 | the dialog is open |
| HomeTab.CreateDialog.Edit | components/dashboard/HomeTab.jsx:189-198 | the fields hold what was typed |
| HomeTab.CreateDialog.Cancel | components/dashboard/HomeTab.jsx:205 | the dialog is closed, the fields are kept |
| HomeTab.CreateDialog.Create | components/dashboard/HomeTab.jsx:32-53 | a blank title does nothing. Otherwise the title and description are sent. Success closes and clears the dialog and goes to "/builder/" + id; failure keeps the fields and shows the error |
| S3.Hex | lib/s3.js:47 | two lower-case hex digits per byte, high nibble first |
| S3.Extension | lib/s3.js:48 | the text after the last '.', or the whole name without one; never holds '.' |
| S3.Filename | lib/s3.js:45-50 | the name is the timestamp's digits, '-', the hex of the 8 random bytes, '.', the extension, each at its stated position |
| S3.FilenameKeepsExtension | lib/s3.js:48-49 | the stored name has the uploaded file's extension |
| S3.FilenameTimestamp | lib/s3.js:46-49 | the digits before the first '-' read back as the timestamp |
| S3.FilenamesDifferInTime | lib/s3.js:45-50 | names made at different milliseconds differ |
| S3.HexInjective | lib/s3.js:47 | different random bytes give different hex text |
| S3.FilenamesDifferInBytes | lib/s3.js:43-49 | names made in the same millisecond from different random bytes differ |
| S3.Key | lib/s3.js:55-60 | `folder/filename`, folder "uploads" by default |
| S3.PublicUrl | lib/s3.js:72 | `https://<bucket>.s3.<region>.amazonaws.com/` then the key |
| S3.ExtractKey | lib/s3.js:87-88 | the URL's path without its leading '/', for URLs that start with exactly `http://` or `https://` and a non-empty host; None otherwise, including some URLs the parser accepts (see Left out) |
| S3.ExtractKeyRoundTrip | lib/s3.js:72-88 | the key read back from a public URL is the key it was built from, for a key the parser leaves unchanged (printable ASCII outside the path percent-encode set, no '%', no backslash, no "." or ".." segment) |
| S3.KeyIsPathSafe | lib/s3.js:55-60 | a key built under such a folder from such a file name without '/' is one the parser leaves unchanged |
| S3.UploadedUrlDeletesSameKey | lib/s3.js:55-96 | deleting by an uploaded file's URL targets the key the upload wrote, for such a folder and file name |
| S3.S3Module.constructor | lib/s3.js:12-13 | no client yet, none created |
| S3.S3Module.Init | lib/s3.js:15-40 | "S3 is not configured..." without all four settings. Otherwise the client is created on the first call and the same cached one is returned afterwards; at most one is ever created |
| S3.S3Module.Upload | lib/s3.js:55-73 | the object is put under the generated key; success returns its public URL; not configured or a failed put is an error; a client once created is kept, and one exists whenever the environment is configured |
| S3.S3Module.Delete | lib/s3.js:78-96 | unconfigured: nothing sent, success. Otherwise it deletes the key read out of the URL; an unparseable URL gives "Invalid URL"; a client once created is kept, and one exists whenever the environment is configured |
| S3.S3Module.PresignedUrl | lib/s3.js:101-119 | a fresh key, the signer's URL and the public URL for that key; an error when not configured; a client once created is kept, and one exists whenever the environment is configured |
| Http.Or | app/api/portfolios/route.js:69-71 | `v \|\| fallback`: v when truthy, otherwise the fallback |
| Strings.Trim | components/dashboard/HomeTab.jsx:33 | the result is a contiguous middle of the input with only whitespace cut off on either side, and has no whitespace at either end |
| Strings.TrimEmptyIff | components/dashboard/HomeTab.jsx:33 | `trim` gives "" exactly for an all-whitespace string |
| Strings.Split | components/ProjectsManager.jsx:80 | at least one piece, none holds the separator |
| Strings.JoinSplit | components/ProjectsManager.jsx:80 | joining the pieces of a split gives the string back |
| Strings.SplitJoin | components/ProjectsManager.jsx:50-80 | splitting a join of separator-free pieces gives the pieces back |
| Strings.LastPiece | lib/s3.js:48 | `split(sep).pop()` is the text after the last separator, or all of it |
| Strings.NatToString | components/dashboard/HomeTab.jsx:47 | decimal digits without leading zeros |
| Strings.NatToStringRoundTrip | lib/s3.js:49 | reading back the digits gives the number |
| Strings.NatToStringInjective | lib/s3.js:49 | different numbers render differently |
| Strings.Utf16Length | app/api/auth/change-password/route.js:27 | between the code-point count and twice it; equal to it without astral characters |
| Lists.FindIndex | components/EditorWithBackend.jsx:201 | the first index that satisfies the test, None exactly when none does |
| Lists.Find | components/EditorWithBackend.jsx:176 | the element at FindIndex, None exactly when no element satisfies the test |
| Lists.Filter | components/EditorWithBackend.jsx:216 | exactly the kept elements, drawn from the input |
| Lists.FilterConcat | components/EditorWithBackend.jsx:216 | filtering a concatenation filters each part, keeping order |
| Lists.MapWhere | components/EditorWithBackend.jsx:118-120 | the hits are replaced in place, everything else kept |
| Lists.InsertAt | components/EditorWithBackend.jsx:202-203 | `splice(i, 0, x)` on a copy: x at i, the prefix and suffix kept in order |

## Left out

- The 500 "Internal server error" paths: database failures, malformed JSON bodies and thrown bcrypt errors are not modelled.
- The Prisma client: the change-password and update-profile routes read and write the same users table as the others (see above).
- Concurrency: each request runs alone against the store. The check-then-insert races of register and update-profile, where two concurrent requests could claim the same email or username, are not modelled. A unique index would reject the second one with a 500.
- MySQL collation: emails and usernames compare exactly, not case-insensitively.
- The `created_at` and `updated_at` timestamps: register takes the creation time as a parameter, and nothing else is stored with a time.
- Portfolios.Post: the model stores an absent title or description as None. mysql2 rejects `undefined` bind values, and `title` is `NOT NULL`, so such a request ends in a 500 instead.
- Portfolios.View: mysql2's automatic parsing of JSON columns into objects is not modelled. A stored column is read back as the value it was written from.
- Request bodies: fields are strings or missing. Non-string values are not modelled, and neither is the difference between JSON `null` and an absent key. JSON numbers are integers only.
- Portfolios.Get: the listing is a map keyed by id, because SQL returns the rows in no promised order. The array's order is not modelled.
- S3.ExtractKey: the WHATWG URL parser is reduced to URLs that start with exactly `http://` or `https://` followed by a non-empty host. Everything else gives "Invalid URL", including URLs the parser accepts. Examples are another scheme such as `ftp://h/k`, an upper-case scheme such as `HTTPS://h/k`, and missing or extra slashes such as `https:h/k` or `https:///h/k`, where the parser's host is "h". The parser also strips leading and trailing spaces and control characters and removes tabs and newlines anywhere. The model does neither, so ` https://h/k` gives "Invalid URL" and `https://h/k ` gives the key "k " where the parser gives "k". Some URLs the parser rejects, such as a bad port or a space in the host, are accepted. Credentials and ports are not split off the host. The percent-encoding of the path and the resolution of "." and ".." segments are not modelled: for such paths the model returns the raw path, and the round-trip lemmas exclude those keys.
- Auth.Authenticate: the token's expiry and the secret are folded into the token service passed in, so the clock is not a separate input.
- Editor.Echo: covers only requests with a non-empty title. For an empty title the route stores and answers `title: null`. The editor never sends one, because "Section n" and the " (copy)" titles are never empty.
- Editor.InsertCopy: builds the copy's card with the corrected CopyCard, archived like the original. The handler builds it with `archived: false`; CopyCardAsWritten models that (see Findings).
- Editor.EditorState.DuplicateSection: inserts the corrected copy card, as Editor.InsertCopy does.
- Editor.EditorState.UpdateSection: a failed update asks for a reload by returning `reload`. The reload itself is a separate call of Load.
- Client effects the model does not reach: image upload through `FileReader` (`handleImageUpload`), the rich-text editor, rendering, routing for the edit button of a portfolio card, the editor's `currentTab`, snackbars and the user shown on the home tab.
- React's asynchronous updates: each handler sees the state as it was when it ran. Stale closures across overlapping requests are not modelled.
- The AWS SDK: the client, the put and delete commands and the URL signer are parameters and results. Credentials are not checked beyond being non-empty.
- The `me`, single-portfolio, sections and public portfolio routes are not part of this model. Only the sections route's create is used, for what a later load returns.

## Findings

| source | as written | input that shows it | evidently intended | confidence | as-written member | corrected member |
|---|---|---|---|---|---|---|
| components/EditorWithBackend.jsx:184-197 | the duplicate request sends `isVisible: !original.archived`, but the local copy card is built with `archived: false` | duplicating an archived section: the copy is stored hidden, yet the board shows it as not archived until the next load | the copy's card is archived exactly when the original is, as the stored copy is | medium (not executed) | Editor.CopyCardAsWritten, Editor.CopyOfArchivedShownUnarchived | Editor.CopyCard, Editor.CopyCardMatchesReload |
