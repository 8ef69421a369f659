# DevMarketWeb client core, modelled in Dafny

A model of the decision logic of the DevMarketWeb React client, a marketplace
where developers list their projects. It covers the following parts:

- **Navigation guards.** The role-aware guard (`RouteGuard.Decide`) and the role-less guard inlined in the application shell (`RouteGuard.ShellDecide`).
- **Route tables.** The browser router and the shell's route list, with a path resolver (`Routes`).
- **Session store.** The user, the loading flag and the storage mirror (`Session`).
- **Request layer.** The access-token store and its two interceptors, the authentication service's effect on the token, and the path and query builders (`Api`, with `UrlEncoding` and `JsStrings` for the JavaScript string and URL functions it relies on).
- **Sign-in dialog.** The validation rules, the e-mail pattern, the submit handler and the three views (`AuthModal`).
- **Submission wizard.** The five-step project submission wizard (`SubmitWizard`).
- **Discover page.** The discover page and its category toggle (`Discover`).
- **Settings dialog.** The profile settings dialog as it stays mounted: interests parsing, the password gate, the avatar buttons and account deletion (`EditProfile`).
- **Profile page.** The status tabs of the profile page (`ProfilePage`).

Everything is pure. Timers are collapsed into atomic transitions. Browser storage is an `Option` held in the state. What a server or a store call settles with is an input of the operation that makes the call.

The files are:

- `core.dfy`: `Option`, `Result` and truthiness.
- `types.dfy`: roles, users and listed projects.
- `js_strings.dfy`: `trim`, `split`, `join`, `indexOf`, `replace`, ASCII `toLowerCase`, UTF-16 `length`, and number rendering.
- `url_encoding.dfy`: `encodeURIComponent` and form-urlencoding.
- One file per part of the client, named after its module.

## Model

| member | source | states |
|---|---|---|
| RouteGuard.Decide | src/routes/ProtectedRoute.tsx:24-36 | Spinner exactly while loading. A redirect carrying the originating location exactly when loading is over and there is no user. A redirect without it exactly when the signed-in user's role is missing from a given role list. Render in exactly the remaining case. Every redirect goes to "/" and replaces the history entry |
| RouteGuard.ToastExactlyOnRedirect | src/routes/ProtectedRoute.tsx:16-22 | An error toast is raised exactly when the guard redirects, never while loading. It reads "You must be logged in" exactly for the redirect that carries the location |
| RouteGuard.EmptyRoleListDeniesEveryone | src/routes/ProtectedRoute.tsx:32-34 | An empty role list is truthy and includes nothing, so it sends every signed-in user home without a location |
| RouteGuard.NoRoleListAdmitsEveryone | src/routes/ProtectedRoute.tsx:32-36 | Without a role list, every signed-in user gets the page once loading is over |
| RouteGuard.WiderRolesAdmitMore | src/routes/ProtectedRoute.tsx:32-34 | A role list that includes every role of another never turns a rendered page into a redirect |
| RouteGuard.ShellDecide | src/App.tsx:27-33 | The shell guard shows the placeholder exactly while loading. It redirects to "/" with the location and replace exactly when not loading and not authenticated. It renders exactly when authenticated, with no role check |
| RouteGuard.ShellAgreesWithUnrestrictedGuard | src/App.tsx:17-34 | Given the same session, the shell guard decides as the role-aware guard does with no role list: placeholder for spinner, redirect with location for redirect, render for render |
| Routes.Resolve | src/routes/Router.tsx:23-60 | The resolved route is in the table and matches the path. When nothing resolves, no route of the table matches |
| Routes.ResolvePicksFirstMatch | src/routes/Router.tsx:23-60 | Resolution picks the first route of the table that matches |
| Routes.ResolveUnique | src/routes/Router.tsx:23-60 | In a table whose patterns are pairwise disjoint, the one matching route is the one resolved |
| Routes.TablesUnambiguous | src/routes/Router.tsx:24-58 | No path matches two routes of the browser router, nor two routes of the shell's list |
| Routes.ShellTableDisjoint | src/App.tsx:47-58 | The six patterns of the shell's route list are pairwise disjoint |
| Routes.EveryPageBelowRoot | src/routes/Router.tsx:19-23 | The browser router has one root layout at "/", and every page is one of its children |
| Routes.SubmitOnlyForSellersAndAdmins | src/routes/Router.tsx:44-51 | "/submit" resolves to the submission page guarded by the roles seller and admin. It renders exactly for a signed-in seller or admin once loading is over. A buyer or a plain user is sent home without a location |
| Routes.ProjectPageForAnySignedInUser | src/routes/Router.tsx:36-43 | "/project/:id" renders for any signed-in user once loading is over. A visitor is sent home carrying the location |
| Routes.ProfileForAnySignedInUser | src/routes/Router.tsx:52-58 | "/profile" renders for any signed-in user once loading is over. A visitor is sent home carrying the location, and while loading everyone sees the spinner |
| Routes.PublicPagesOfBrowserRouter | src/routes/Router.tsx:24-35 | "/", "/discover" and "/marketplace" render whatever the session is |
| Routes.ShellGuardedPages | src/App.tsx:49-58 | In the shell, "/marketplace", "/submit" and "/profile" show the shell guard's decision |
| Routes.ShellPublicPages | src/App.tsx:47-52 | In the shell, "/", "/discover" and "/project/:id" render whatever the session is |
| Routes.TablesDisagreeOnSubmit | src/App.tsx:53-55 | The shell renders "/submit" for any authenticated user, while the browser router sends a buyer home |
| Session.Mount | src/contexts/AuthContext.tsx:27-28 | The provider starts with no user and loading |
| Session.Restore | src/contexts/AuthContext.tsx:29-40 | The start-up timer adopts the stored user when the key is present, and otherwise keeps the user. Loading always ends |
| Session.BeginSignIn | src/contexts/AuthContext.tsx:41-44 | Calling a sign-in operation raises loading and changes nothing else |
| Session.SignupUser | src/contexts/AuthContext.tsx:56-61 | The signed-up user is the demonstration account with only its name and e-mail replaced |
| Session.SettleSignIn | src/contexts/AuthContext.tsx:45-49 | When the sign-in timer fires, the user becomes the session user, is written to storage, and loading ends |
| Session.SignInOutcomes | src/contexts/AuthContext.tsx:41-79 | Login and Google login end on the demonstration account, stored and not loading. Sign-up ends on it with only name and e-mail replaced. Every outcome is authenticated |
| Session.Logout | src/contexts/AuthContext.tsx:80-83 | Logout clears the user and the storage key and leaves loading as it was |
| Session.Snapshot | src/contexts/AuthContext.tsx:84-92 | The provider value carries the user and loading flag, and `isAuthenticated` holds exactly when there is a user |
| Session.UseAuth | src/contexts/AuthContext.tsx:96-102 | Outside a provider the hook fails with its fixed message. Inside one it returns the provider value |
| Session.RestoreThenMirrored | src/contexts/AuthContext.tsx:29-83 | After the start-up restore, storage mirrors the session user through any sequence of logins, sign-ups and logouts |
| Session.ReloadKeepsUser | src/contexts/AuthContext.tsx:33-37 | A mirrored session survives a reload: mounting on the stored value and restoring gives back the same user, not loading |
| Session.LogoutClearsEverything | src/contexts/AuthContext.tsx:80-91 | After logout the session is not authenticated, and a second logout changes nothing |
| Api.BaseUrl | src/services/api.ts:4 | The configured base URL when truthy, otherwise "http://localhost:5000". It is never empty |
| Api.AuthorizationHeader | src/services/api.ts:16-23 | A header is attached exactly when a truthy token is stored, and it reads "Bearer " followed by the token |
| Api.AfterRejection | src/services/api.ts:34-42 | A 401 removes the token, and any other failure leaves it as it was |
| Api.StoreAfterRequest | src/services/api.ts:30-43 | A successful response leaves the token alone. A failed one goes through the 401 rule |
| Api.StoreAfterAuth | src/services/api.ts:68-83 | A truthy `accessToken` in the answer is stored. An answer without one keeps the old token. A rejection goes through the 401 rule |
| Api.Login | src/services/api.ts:68-74 | Login resolves or rejects with the server's answer unchanged. A truthy `accessToken` in the answer becomes the stored token, and an answer without one keeps the token as it was. A 401 rejection removes the token and any other rejection keeps it |
| Api.SignupBody | src/services/api.ts:76-77 | The sign-up body carries name, e-mail and password, and the role defaults to "buyer" |
| Api.Signup | src/services/api.ts:76-83 | Sign-up posts name, e-mail, password and the role, "buyer" when omitted. It settles exactly as login does: the answer unchanged, its truthy token stored |
| Api.Logout | src/services/api.ts:85-93 | Whatever the server answers, logout resolves and the token is removed |
| Api.TokenLifecycle | src/services/api.ts:16-43 | After a login with a token every request carries it. After logout or a 401 no request carries one |
| Api.TokenSurvivesOtherOutcomes | src/services/api.ts:68-74 | A non-401 failure, or an answer with a missing or empty token, keeps the stored token |
| Api.UploadAuthorization | src/services/api.ts:116-120 | The upload always sends a header, and with nothing stored it reads "Bearer null" |
| Api.UploadHeaderDiffersWithoutToken | src/services/api.ts:110-122 | With a truthy token the upload header equals the interceptor's. Without one the interceptor attaches none |
| Api.ProjectPathInjective | src/services/api.ts:143-145 | Distinct project ids give distinct project paths |
| Api.ProjectUrlsInjective | src/services/api.ts:116-125 | Distinct project ids give distinct submit paths, and distinct media upload URLs on the same base URL |
| Api.UploadMedia | src/services/api.ts:110-122 | The upload goes to the base URL followed by the project's media path, with the header built from storage. It bypasses the interceptors, so whatever it settles with leaves the token as it was |
| Api.UploadKeepsTokenOn401 | src/services/api.ts:110-122 | A 401 on an upload keeps the stored token, while the same 401 on a request through the shared instance removes it |
| Api.StatusPathIgnoresCase | src/services/api.ts:132-135 | The status path lower-cases the status, so it does not depend on the status's case. `?owner=` appears only for a truthy owner |
| Api.MarketplaceDefaults | src/services/api.ts:139-141 | With both arguments omitted the path asks for page 1 of 10. Omitting one argument equals passing its default |
| Api.CollapseSpaces | src/services/api.ts:153 | The result holds no whitespace. A string without whitespace is kept unchanged, and a non-empty run of whitespace alone becomes one "-" |
| Api.CollapseSpacesAppend | src/services/api.ts:153 | Where two strings do not split a whitespace run, collapsing their concatenation concatenates the collapsed parts. With the clause above, every maximal run becomes exactly one "-" and nothing else changes |
| Api.CategorySlug | src/services/api.ts:153 | A slug holds neither whitespace nor an upper-case ASCII letter. A category without whitespace becomes its lower-case form, and one that is all whitespace becomes "-" |
| Api.CategorySlugAppend | src/services/api.ts:153 | Where two pieces do not split a whitespace run, the slug of the whole is the two slugs put together, so a category is slugged run by run |
| Api.CategorySlugJoinsWords | src/services/api.ts:153 | Two words separated by any whitespace run give the lower-cased words joined by "-" |
| Api.CategorySlugPadded | src/services/api.ts:153 | Leading and trailing whitespace runs each become one "-" around the slug of the middle |
| Api.CategorySlugTwoWords | src/services/api.ts:153 | "AI Tools" becomes "ai-tools" |
| Api.CategorySlugPaddedWords | src/services/api.ts:153 | " Social  Media " becomes "-social-media-" |
| Api.CategorySlugIdempotent | src/services/api.ts:153 | Slugging a slug gives it back |
| Api.DiscoverPairs | src/services/api.ts:151-154 | The discover fields appear in the order limit, page, category, search, each at most once |
| Api.DiscoverFields | src/services/api.ts:151-154 | Each field is present exactly when its parameter is truthy, and the category is also dropped when it is "All". Each carries the rendered number, the slug or the search text |
| Api.DiscoverQueryReadsBack | src/services/api.ts:149-157 | The discover path is "/api/discover?" followed by the query. The query splits at "&" into one encoded field per appended parameter, and is empty when no parameter is truthy |
| Api.ImageUrlAsWritten | src/services/api.ts:62-63 | As written: when the base URL contains no "/api", the image URL is the base, "/proxy-image?path=" and the encoded path |
| Api.ImageUrlAsWrittenCutsFirstApi | src/services/api.ts:62-63 | As written: the first "/api" anywhere in the base URL is cut out |
| Api.ImageUrlAsWrittenBreaksApiHost | src/services/api.ts:62-63 | As written: a base "http://api.<host>" yields "http:/.<host>/proxy-image?path=…", which no longer names the host |
| Api.ImageUrl | src/services/api.ts:62-63 | Corrected: the image URL is the base without a trailing "/api", followed by "/proxy-image?path=" and the encoded path |
| Api.ImageUrlKeepsHost | src/services/api.ts:62-63 | Corrected: a base not ending in "/api" is kept whole, and one ending in it loses exactly those four characters |
| Api.ImageUrlKeepsApiHost | src/services/api.ts:62-63 | Corrected: a base whose host starts with "api." is kept whole |
| Api.ImageUrlPathReadsBack | src/services/api.ts:63 | The path parameter of the image URL percent-decodes back to the relative path |
| UrlEncoding.EncodeUriComponentRoundTrip | src/services/api.ts:63 | Percent-decoding `encodeURIComponent` of an ASCII string gives the string back |
| UrlEncoding.FormEncodeRoundTrip | src/services/api.ts:150-156 | Form-decoding the form-urlencoding of an ASCII string gives the string back |
| UrlEncoding.FormEncodeHasNoSeparator | src/services/api.ts:156 | An encoded name or value holds no "&", "=" or space |
| UrlEncoding.SerializeQuerySplits | src/services/api.ts:156 | A serialized query splits at "&" into exactly its encoded fields |
| JsStrings.SplitJoin | src/components/profile/EditProfileModal.tsx:38 | Splitting the join of separator-free pieces gives back the pieces |
| JsStrings.TrimSkipsLeadingSpace | src/components/profile/EditProfileModal.tsx:38 | Trimming ignores a leading whitespace character |
| JsStrings.ToLowerIdempotent | src/services/api.ts:134 | Lower-casing twice is lower-casing once |
| JsStrings.NatToStringRoundTrip | src/services/api.ts:151-152 | The decimal rendering of a number reads back as that number |
| AuthModal.MatchesEmail | src/components/auth/AuthModal.tsx:36 | The one-pass matcher answers true exactly when the unanchored pattern `\S+@\S+\.\S` matches somewhere in the string |
| AuthModal.EmailExamples | src/components/auth/AuthModal.tsx:36 | "a@b.c" and "a@..c" match. "a@.c", "a@b. c" and "@b.c" do not |
| AuthModal.EmailError | src/components/auth/AuthModal.tsx:36 | "Email is required" exactly for an empty e-mail. "Email is invalid" exactly for a non-empty one the pattern rejects. At most one e-mail error |
| AuthModal.PasswordError | src/components/auth/AuthModal.tsx:39-41 | Outside the verification view: "required" exactly for an empty password, "at least 6" exactly for a non-empty one under six UTF-16 units. No password error in the verification view |
| AuthModal.NameError | src/components/auth/AuthModal.tsx:44 | A name error exactly in sign-up with an empty name |
| AuthModal.ConfirmError | src/components/auth/AuthModal.tsx:45 | "Passwords do not match" exactly in sign-up with differing passwords |
| AuthModal.Validate | src/components/auth/AuthModal.tsx:34-49 | The error map holds each field's error under exactly the conditions of its rule, with the rule's message |
| AuthModal.ValidateEmptyIff | src/components/auth/AuthModal.tsx:47-48 | The error map is empty exactly when every rule is satisfied |
| AuthModal.Open | src/components/auth/AuthModal.tsx:14-25 | The state the dialog mounts with: the requested view, or sign-in by default, empty fields, the role "buyer" and no errors |
| AuthModal.FailureToast | src/components/auth/AuthModal.tsx:70-77 | The error's message, or "Authentication failed." when it has none. It is shown for 5000 ms exactly when its lower-cased text mentions "verify" or "verification" |
| AuthModal.Submit | src/components/auth/AuthModal.tsx:51-78 | The errors are always recomputed. A store call is made exactly when the form validates in sign-in or sign-up, with that view's arguments. A rejection toasts and keeps the view. The dialog closes exactly on a resolved login, or a resolved sign-up with a truthy token. A resolved sign-up without one moves to the verification view |
| AuthModal.SignupThroughStoreAlwaysAsksToVerify | src/components/auth/AuthModal.tsx:60-68 | The session store's sign-up resolves with nothing. So a valid sign-up always lands on the verification view with its notice and never closes |
| AuthModal.LoginResolvedCloses | src/components/auth/AuthModal.tsx:56-59 | A valid login that resolves closes the dialog with "Welcome back!" |
| AuthModal.BackToSignIn | src/components/auth/AuthModal.tsx:114-117 | "Back to Sign In" shows sign-in and clears the password only |
| AuthModal.ToggleMode | src/components/auth/AuthModal.tsx:236-256 | The link switches sign-in to sign-up and sign-up to sign-in, and changes nothing else |
| AuthModal.ToggleTwice | src/components/auth/AuthModal.tsx:236-256 | Following the link twice is no change |
| AuthModal.GoogleLogin | src/components/auth/AuthModal.tsx:80-88 | The dialog closes with "Welcome back!" exactly when the Google sign-in succeeds. Otherwise it shows "Google login failed." |
| SubmitWizard.InitialFormKeys | src/components/submit/SubmitForm.tsx:13-28 | The form starts with exactly the fourteen fields |
| SubmitWizard.InitialFormShape | src/components/submit/SubmitForm.tsx:13-28 | The form's text fields start empty except category "AI Tools" and platform "Web". There is no thumbnail and no screenshot, and the project is not for sale |
| SubmitWizard.UpdateForm | src/components/submit/SubmitForm.tsx:29-34 | The updated field takes the value, and every other field keeps its value |
| SubmitWizard.UpdateFormOverwrites | src/components/submit/SubmitForm.tsx:29-34 | A later update of the same field wins |
| SubmitWizard.UpdateFormCommutes | src/components/submit/SubmitForm.tsx:29-34 | Updates of different fields commute |
| SubmitWizard.UpdateFormSameValue | src/components/submit/SubmitForm.tsx:29-34 | Writing a field's own value back changes nothing |
| SubmitWizard.Next | src/components/submit/SubmitForm.tsx:35-38 | Next moves one step forward only below step 5, and keeps the step within 1 to 5 |
| SubmitWizard.Back | src/components/submit/SubmitForm.tsx:39-41 | Back moves one step back only above step 1, and keeps the step within 1 to 5 |
| SubmitWizard.NextBackRoundTrip | src/components/submit/SubmitForm.tsx:35-41 | Next then Back returns to steps 1 to 4. Back then Next returns to steps 2 to 5 |
| SubmitWizard.NextTimesFromStart | src/components/submit/SubmitForm.tsx:35-38 | Pressing Next k times from step 1 reaches step 1 + k, capped at 5 |
| SubmitWizard.ProgressBounds | src/components/submit/SubmitForm.tsx:77 | The bar width grows with the step, lies in (0, 100] and is full only at step 5 |
| SubmitWizard.HighlightedSteps | src/components/submit/SubmitForm.tsx:51-73 | The highlighted labels are exactly the first `step` step names |
| SubmitWizard.ButtonsMatchNavigation | src/components/submit/SubmitForm.tsx:239-250 | Back is disabled exactly when it would do nothing. Submit replaces Next exactly when Next would do nothing, which is at step 5 |
| SubmitWizard.Apply | src/components/submit/SubmitForm.tsx:29-41 | Navigation never touches the form, editing never touches the step, and the step stays within 1 to 5 |
| SubmitWizard.RunKeepsInvariant | src/components/submit/SubmitForm.tsx:11-41 | Over any sequence of actions the step stays within 1 to 5. Fields nobody edited keep their value, and the field set grows only by the edited keys |
| SubmitWizard.BeginSubmit | src/components/submit/SubmitForm.tsx:42-43 | Submitting raises the spinner and changes nothing else |
| SubmitWizard.FinishSubmit | src/components/submit/SubmitForm.tsx:45-49 | The simulated submission stops the spinner, navigates to "/profile" and toasts success |
| SubmitWizard.ReviewText | src/components/submit/SubmitForm.tsx:207-212 | The review shows the title, or the description, when it is present and truthy, and its placeholder ("Untitled Project", "No description provided.") otherwise; a line is never blank |
| SubmitWizard.ReviewOfFreshForm | src/components/submit/SubmitForm.tsx:207-232 | A fresh form reviews as untitled, undescribed and with no price line. A typed title is shown as typed |
| Discover.Without | src/components/discover/FilterSidebar.tsx:20 | Filtering a category out leaves no occurrence of it, keeps every other element, and changes nothing when the category is absent |
| Discover.WithoutAppend | src/components/discover/FilterSidebar.tsx:20 | Filtering distributes over concatenation, so the other categories keep their relative order |
| Discover.ToggleCategory | src/components/discover/FilterSidebar.tsx:19-22 | The category is in the result exactly when it was not in the list. A present one is removed everywhere. An absent one is appended at the end |
| Discover.ToggleTwice | src/components/discover/FilterSidebar.tsx:20 | Toggling an absent category twice restores the list. Toggling a present one twice moves it, once, to the end |
| Discover.ChangeFilters | src/pages/DiscoverPage.tsx:41-45 | A filter change replaces its own key and keeps the other two |
| Discover.HandleFilterChange | src/pages/DiscoverPage.tsx:41-47 | Every filter change sets loading and keeps the listed projects |
| Discover.ClickCategory | src/components/discover/FilterSidebar.tsx:19-22 | A category click reports its list under the categories key. It flips that category's membership and keeps profession and platform |
| Discover.MockList | src/pages/DiscoverPage.tsx:8-24 | The first n demonstration projects, each the i-th project of the generator |
| Discover.MockProjectsShape | src/pages/DiscoverPage.tsx:8-24 | Nine approved projects. Categories alternate from "AI Tools", and every third one is on mobile |
| Discover.FetchDone | src/pages/DiscoverPage.tsx:33-40 | The simulated fetch lists the nine projects, stops loading and keeps the filters |
| Discover.NeverEmptyMessage | src/pages/DiscoverPage.tsx:82 | While the list is only empty during loading, no sequence of filter changes and fetches shows "No projects found" |
| Discover.MountedNeverEmpty | src/pages/DiscoverPage.tsx:26-40 | Starting from the mounted page, no run ever shows the empty message |
| EditProfile.DropEmpty | src/components/profile/EditProfileModal.tsx:38 | Dropping empty entries keeps only non-empty entries of the input, and changes nothing when there are none |
| EditProfile.DropEmptyAppend | src/components/profile/EditProfileModal.tsx:38 | The filter distributes over concatenation, so the kept entries stay in their order |
| EditProfile.DropEmptyKeepsCount | src/components/profile/EditProfileModal.tsx:38 | Every non-empty entry is kept as often as it occurs, and no empty entry is kept |
| EditProfile.ParseInterests | src/components/profile/EditProfileModal.tsx:38 | Every parsed interest is non-empty, trimmed and comma-free |
| EditProfile.ParseInterestsPiece | src/components/profile/EditProfileModal.tsx:38 | Text without a comma gives its trimmed form as the one interest, or nothing when it is blank |
| EditProfile.ParseInterestsAppend | src/components/profile/EditProfileModal.tsx:38 | The interests of "piece,rest" are those of the piece followed by those of the rest, so the text is read piece by piece in order |
| EditProfile.ParseInterestsThreePieces | src/components/profile/EditProfileModal.tsx:38 | Three pieces separated by two commas are read one after the other |
| EditProfile.ParseInterestsClean | src/components/profile/EditProfileModal.tsx:38 | A clean interest typed alone is read back as itself |
| EditProfile.ParseInterestsSkipsBlank | src/components/profile/EditProfileModal.tsx:38 | A blank entry between two clean interests is dropped, so "a,,b" and "a, ,b" read as the two interests |
| EditProfile.TrimKeepsOut | src/components/profile/EditProfileModal.tsx:38 | Trimming never brings in a character the text lacked |
| EditProfile.ParseShowRoundTrip | src/components/profile/EditProfileModal.tsx:21-38 | Parsing the ", "-joined text of clean interests gives back the same interests in order |
| EditProfile.ParseIsNormalForm | src/components/profile/EditProfileModal.tsx:38 | Showing and re-parsing parsed interests changes nothing |
| EditProfile.InitialFields | src/components/profile/EditProfileModal.tsx:20-26 | The dialog starts from the user's name and joined interests, or empty text when missing. All password fields start empty |
| EditProfile.Mount | src/components/profile/EditProfileModal.tsx:15-30 | The hook state of the first render: the fields the user of that render gives, both spinners off, not logged out |
| EditProfile.Render | src/components/profile/EditProfileModal.tsx:32 | The dialog renders nothing while hidden, and otherwise the fields it holds, not fields recomputed from the current user |
| EditProfile.UnchangedInterestsSurviveSave | src/components/profile/EditProfileModal.tsx:21-39 | Saving the dialog unchanged sends the user's clean interests back exactly |
| EditProfile.ErrorToastFor | src/components/profile/EditProfileModal.tsx:44 | An error toast shows the server's message when truthy, and the operation's fallback otherwise |
| EditProfile.UpdateProfile | src/components/profile/EditProfileModal.tsx:34-48 | The name and parsed interests are sent. The dialog closes exactly on success, with the matching toast, and loading ends |
| EditProfile.ChangePassword | src/components/profile/EditProfileModal.tsx:50-67 | Mismatched passwords: no call, nothing changed, "Passwords do not match". Otherwise the change is sent and loading ends. Only success clears the three password fields |
| EditProfile.PasswordFormEmptyAfterSuccess | src/components/profile/EditProfileModal.tsx:59-61 | After a successful change all three password fields are empty |
| EditProfile.DeleteAccount | src/components/profile/EditProfileModal.tsx:98-112 | Declining the confirmation makes no call and changes nothing, loading included. Success logs out. Failure reports and stops loading |
| EditProfile.UploadAvatar | src/components/profile/EditProfileModal.tsx:69-83 | No file means no call and no change. Otherwise the upload is sent, the toast matches the outcome, and the spinner stops |
| EditProfile.DeleteAvatar | src/components/profile/EditProfileModal.tsx:85-96 | The removal is always sent, the toast matches the outcome, and the spinner stops |
| EditProfile.SpinnersSettle | src/components/profile/EditProfileModal.tsx:34-112 | From a dialog with both spinners off, any run of events without an accepted account deletion ends with both off. The user ends logged out exactly when such a deletion happened |
| EditProfile.RunKeepsLoggedOut | src/components/profile/EditProfileModal.tsx:98-112 | Nothing in the dialog undoes a logout |
| EditProfile.FieldsWithoutTyping | src/components/profile/EditProfileModal.tsx:20-67 | Without typing, the fields end as they were, except that an accepted password change empties the three password fields when the new passwords agreed. Hiding and showing the dialog, saving the profile and the avatar and account buttons leave them alone |
| EditProfile.ReopenKeepsTyping | src/components/profile/EditProfileModal.tsx:20-32 | Typed values are still shown after the dialog is hidden and shown again |
| ProfilePage.FilterByTab | src/pages/ProfilePage.tsx:45-48 | A tab lists exactly the projects whose status is its label. The marketplace tab lists nothing |
| ProfilePage.FilterAppend | src/pages/ProfilePage.tsx:45-48 | The tab filter distributes over concatenation, so it keeps the original order |
| ProfilePage.FilterKeepsCount | src/pages/ProfilePage.tsx:45-48 | Each listed project appears as often as in the input, and every other project not at all |
| ProfilePage.ExactlyOneTab | src/pages/ProfilePage.tsx:45-48 | A project is listed under at most one tab, and under some tab exactly when its status is Approved, Pending or Draft |
| ProfilePage.TabsPartition | src/pages/ProfilePage.tsx:45-48 | When every status is one of the three labels, the three status tabs together list every project once |
| ProfilePage.Render | src/pages/ProfilePage.tsx:44-58 | Nothing without a user. Otherwise the user's name, e-mail, avatar, verified badge and the active tab's projects |
| ProfilePage.TabContents | src/pages/ProfilePage.tsx:9-48 | The default tab (Approved) lists the approved demonstration project and the Draft tab the draft one. Pending and Marketplace list nothing |

## Left out

- **HTTP transport.** Axios, the HTTP transport, timeouts, `FormData` uploads and JSON parsing are left out. What a server answers, or whether a request fails and with which status, is an input of each operation.
- **Side effects as data.** Toasts, dialog closing and navigation are recorded as outputs, not performed.
- **Storage.** `localStorage` is an `Option` held in the state, and `JSON.parse`/`JSON.stringify` of the stored user are identities.
- **react-router.** Its internals are modelled only as exact matching of path segments against literal and `:param` segments. Redirects are data.
- **Timers.** Each `setTimeout` (session start-up and sign-in, the wizard's submission, the discover fetch) is collapsed into a separate atomic step. Cancellation on unmount is not modelled.
- **Missing service calls.** The settings dialog calls account-service methods and a `refreshUser` that neither the request layer nor the session store defines. How each such call settles is an input, and a failed `refreshUser` is folded into that one reply.
- **Sign-up resolution.** The dialog reads `accessToken` from the session store's `signup`, which resolves with nothing. The reply is an input. `AuthModal.SignupThroughStoreAlwaysAsksToVerify` states what the store's actual resolution leads to.
- **Other services.** The bodies of `getMe`, `getAllProjects`, `createProject`, `updateProject`, `getSuggestions`, `updateInterests` and the generic `get`/`post`/`put`/`patch`/`del` wrappers are left out: they forward to the transport. Only the path builders are modelled: `Api.ProjectPath`, `Api.SubmitPath` and `Api.MediaUrl`, the last two through `Api.ProjectUrlsInjective` and `Api.UploadMedia`.
- **Other components.** The presentational components, `Navbar`, `BuyRequestModal`, the landing, marketplace and project-details pages and the endpoint-probing scripts are left out: they are markup, window side effects or network I/O.
- **Wizard extras.** The wizard's per-step validation, draft persistence, media upload and completion score are left out: the code has only a placeholder comment where validation would go.
- **Project shape.** The shared `Project` type nests its fields, but the listing pages read flat `category`, `platform` and `status` fields. The model follows the pages.
- Api.CategorySlug: `toLowerCase` is modelled for ASCII letters only; other characters are kept, because Unicode case mapping is not modelled.
- Routes.Resolve: segments are compared exactly. The router also matches paths case-insensitively and ignores a trailing slash, so "/Profile" and "/submit/" reach a page in the browser but resolve to nothing here.
- Api.ImageUrlPathReadsBack: the read-back is proved for ASCII paths only, because the UTF-8 decoding of multi-byte escapes is not modelled.
- UrlEncoding.EncodeUriComponentRoundTrip: proved for ASCII strings only, for the same reason.
- UrlEncoding.FormEncodeRoundTrip: proved for ASCII strings only, for the same reason.
- Api.DiscoverPairs: limit and page are integers; a non-integer JavaScript number and its rendering are not modelled.
- Discover.ChangeFilters: a change names one of the three known keys. An unknown key, which would add a fourth property to the record, is not modelled.
- SubmitWizard.ProgressBounds: the width is `step * 20`. For the five steps this is exactly what the floating-point `step / 5 * 100` gives; floating point is not modelled.
- AuthModal.ToggleMode: the link is drawn only in the sign-in and sign-up views. The model also defines it on the verification view, where it leads to sign-in.
- RouteGuard.Decide: a route's empty role list denies every signed-in user, as the code does.

## Findings

| source | as written | input that shows it | evidently intended | confidence | as-written member | corrected member |
|---|---|---|---|---|---|---|
| src/services/api.ts:62-63 | `API_BASE_URL.replace('/api', '')` removes the first "/api" anywhere in the base URL | base "http://api.example.com" gives "http:/.example.com/proxy-image?path=…" | strip a trailing "/api" path segment from the base URL, keeping the origin | medium, not executed | Api.ImageUrlAsWritten, Api.ImageUrlAsWrittenBreaksApiHost | Api.ImageUrl, Api.ImageUrlKeepsApiHost, Api.ImageUrlKeepsHost |
