# Educational platform front end: event-handler model

The modelled system is the browser front end of an Arabic/French educational
platform. Public visitors browse levels, groups, modules and their files and
announcements. Administrators sign in and manage the content through admin
pages that talk to a hosted database, auth and storage service.

This project covers the event handlers and derived views of those pages:

- the public header's hidden admin-entry gesture and its timetable link;
- the admin file manager: module and section selection, file upload, file deletion;
- the module manager: create with the four default sections, update, delete, and the repair button;
- the settings page: save the site settings, fetch them, and the account form with its checks;
- the announcement composer: text or voice note, optional image, MIME checks on picked files;
- the public announcement panel and its voice-note player;
- the admin shell: session guard, side menu, sign-out;
- the login page.

How it is modelled:

- The hosted service is not modelled. Each handler gets the outcome of every
  call it may make as a parameter (`Remote.Status`, `Remote.Outcome`). It
  consults an outcome only when it actually makes that call.
- Each handler returns the sequence of requests it sends (a `Request`
  datatype per page). That sequence pins down which calls are made, in what
  order, with what payload, and which calls are not made.
- State a page keeps across events is a `class` whose fields are its state
  variables. Each handler is a method that changes only what it names.
- Pure parts are functions with contracts, plus lemmas that relate them. This
  covers path building, extension parsing, classification, the click gesture,
  the panel, and the form checks.
- Browser string operations (`split`, `pop`, `toLowerCase`, `startsWith`,
  number rendering) are defined once in `Text`, with their properties proved.

Modules: `Remote`, `Text`, `Content` (table rows), `PublicLayout`, `Files`,
`Modules`, `Settings`, `Announcements`, `LevelGroups`, `AdminLayout`, `Login`.

## Model

| member | source | states |
|---|---|---|
| Remote.OrElse | src/pages/admin/Announcements.jsx:148 | `message \|\| fallback`: the message when non-empty, otherwise the fallback |
| Text.IndexOf | src/pages/admin/Files.jsx:97 | the result is the first position at or after `from` where the separator occurs, and there is none before it; `None` means there is no occurrence at or after `from` |
| Text.Split | src/pages/admin/Files.jsx:97 | `String.prototype.split` with a non-empty separator yields at least one piece |
| Text.SplitCount | src/pages/admin/Files.jsx:98 | the split has more than one piece exactly when the text contains the separator |
| Text.SplitPiecesFree | src/pages/admin/Files.jsx:54 | no piece of a split contains the separator |
| Text.SplitFirst | src/pages/admin/Files.jsx:97-99 | the first piece is the text before the first separator (the whole text when there is none) |
| Text.SplitLastSuffix | src/pages/admin/Files.jsx:54 | the last piece (`pop()`) is a suffix of the text |
| Text.JoinSplit | src/pages/admin/Files.jsx:54 | joining the pieces with the separator gives back the text: split loses nothing |
| Text.JoinLast | src/pages/admin/Files.jsx:54 | a join of several pieces ends with the separator followed by the last piece |
| Text.SplitLastPreceded | src/pages/admin/Files.jsx:54 | with more than one piece, the separator sits directly before the last piece |
| Text.SplitAtFirst | src/pages/admin/Files.jsx:97-99 | a text made of a head, the first separator and a separator-free tail splits into exactly those two pieces |
| Text.ToLower | src/pages/admin/Files.jsx:69-71 | same length, and each character is mapped to lower case on its own |
| Text.ToUpper | src/pages/admin/Files.jsx:69-71 | same length, and each character is mapped to upper case on its own (used to state case independence) |
| Text.LowerIgnoresCase | src/pages/admin/Files.jsx:69-71 | lower-casing an upper-cased or lower-cased text gives the lower-cased original |
| Text.NatToString | src/pages/admin/Announcements.jsx:101 | the decimal rendering of `Date.now()` is non-empty, all digits, with no leading zero |
| Text.DecimalRoundTrip | src/pages/admin/Announcements.jsx:101 | reading the rendering back gives the number: distinct times render differently |
| PublicLayout.Click | src/layouts/PublicLayout.jsx:20-39 | a click more than 1000 ms after the last starts again at 1 and never navigates; a timely click adds one and navigates exactly on the seventh, resetting to 0; the click time is remembered |
| PublicLayout.Navigations | src/layouts/PublicLayout.jsx:20-39 | one navigation answer per click |
| PublicLayout.CountStaysBelowSeven | src/layouts/PublicLayout.jsx:25-35 | any sequence of clicks keeps a count in 0..6 inside 0..6 |
| PublicLayout.ReachableCount | src/layouts/PublicLayout.jsx:8 | from the initial state (both zero), the count is always one of 0..6 |
| PublicLayout.RunRemembersLastClick | src/layouts/PublicLayout.jsx:38 | after any clicks, the remembered time is that of the last click |
| PublicLayout.QuickClicks | src/layouts/PublicLayout.jsx:27-35 | timely clicks count up one each; only the one that reaches seven navigates, and it resets the count |
| PublicLayout.SevenClicksNavigate | src/layouts/PublicLayout.jsx:20-39 | a late click followed by six timely clicks navigates on the seventh click and on no other |
| PublicLayout.RunAppend | src/layouts/PublicLayout.jsx:20-39 | clicking through two batches is the same as clicking through their concatenation |
| PublicLayout.LateSeventhClick | src/layouts/PublicLayout.jsx:25-26 | if the seventh click is late, none of the seven navigates and the count is back at 1 |
| PublicLayout.Header.constructor | src/layouts/PublicLayout.jsx:8-9 | no settings, count and last time zero |
| PublicLayout.Header.HandleLogoClick | src/layouts/PublicLayout.jsx:20-39 | the new state and the navigation are those of `Click`; the count stays in 0..6; the settings are untouched |
| PublicLayout.Header.OnSettingsFetched | src/layouts/PublicLayout.jsx:12-18 | a returned row replaces the settings; no row leaves them as they were |
| PublicLayout.Header.TimetableLink | src/layouts/PublicLayout.jsx:59-69 | the link is shown exactly when settings exist with a non-empty timetable URL, and it points at that URL |
| PublicLayout.SecretEntry | src/layouts/PublicLayout.jsx:20-39 | from a fresh header, seven clicks one millisecond apart reach the admin login page |
| Files.Extension | src/pages/admin/Files.jsx:54 | `name.split('.').pop()` is the dot-free suffix after the last dot, or the whole name when there is no dot |
| Files.Classify | src/pages/admin/Files.jsx:68-71 | image exactly for jpg/jpeg/png/gif, video exactly for mp4/webm, pdf exactly for pdf and a generic file otherwise, each decided on the lower-cased extension |
| Files.WireNamesDistinct | src/pages/admin/Files.jsx:68-71 | the four `file_type` texts are pairwise distinct, so the recorded type determines the text stored |
| Files.ClassifyIgnoresCase | src/pages/admin/Files.jsx:69-71 | upper-, lower- or mixed-case spellings of an extension are classified alike |
| Files.UploadPath | src/pages/admin/Files.jsx:55-56 | the storage path lies under `uploads/` and ends with a dot and the extension |
| Files.ExtensionOfUploadPath | src/pages/admin/Files.jsx:54-56 | the extension read back from the storage path is the one the upload used |
| Files.StoragePathOf | src/pages/admin/Files.jsx:97-99 | a path is recovered exactly when the URL contains `/platform-files/` |
| Files.StoragePathOfSegment | src/pages/admin/Files.jsx:97-99 | the recovered path is the text after the first marker, up to the next marker if any |
| Files.StoragePathOfUrl | src/pages/admin/Files.jsx:97-99 | a URL made of a base, the marker and a marker-free path gives back that path |
| Files.UploadPathHasNoMarker | src/pages/admin/Files.jsx:56 | an upload path never contains the bucket marker |
| Files.DeleteFindsUploadedObject | src/pages/admin/Files.jsx:55-102 | deleting a file removes the very object its upload stored |
| Files.FilesPage.constructor | src/pages/admin/Files.jsx:6-13 | empty lists, no selection, empty title, loading, not uploading |
| Files.FilesPage.OnModulesFetched | src/pages/admin/Files.jsx:29-34 | the list (empty without data), the first module selected when there is one, loading off, nothing else changed |
| Files.FilesPage.OnModuleChanged | src/pages/admin/Files.jsx:19-22 | a selected module has its sections fetched; no module clears the sections and the section selection |
| Files.FilesPage.OnSectionsFetched | src/pages/admin/Files.jsx:36-40 | the list, and its first section selected when there is one; an empty list keeps the previous selection, as written |
| Files.FilesPage.OnSectionsFetchedClearing | src/pages/admin/Files.jsx:36-40 | corrected fetch: an empty list clears the selection, so the selection is always a listed section |
| Files.FilesPage.OnSectionChanged | src/pages/admin/Files.jsx:24-27 | a selected section has its files fetched; no section empties the file list |
| Files.FilesPage.OnFilesFetched | src/pages/admin/Files.jsx:42-45 | the list, empty when none came back |
| Files.UploadGuarded | src/pages/admin/Files.jsx:49 | the handler's early return: no file, no selected section or no title |
| Files.UploadRequest | src/pages/admin/Files.jsx:54-60 | the upload of a picked file goes under `uploads/` and ends with a dot and the extension of the file's name |
| Files.RecordedRow | src/pages/admin/Files.jsx:68-78 | the inserted row carries the selected section, the title and the public URL, and the type `Classify` gives the extension of the file's name |
| Files.FilesPage.HandleFileUpload | src/pages/admin/Files.jsx:47-91 | without a file, section or title nothing happens. Otherwise: upload under `uploads/`; on success, insert the row typed by the extension into the selected section; on success again, clear the title and refetch. Any failure stops there with its message. Uploading is off at the end |
| Files.FilesPage.HandleDelete | src/pages/admin/Files.jsx:93-117 | nothing without confirmation. Otherwise the stored object is removed when the URL yields a path, then the row is deleted. Success refetches with the success alert; failure shows the failure alert |
| Files.StaleSectionUpload | src/pages/admin/Files.jsx:19-78 | as written: after a switch to another module whose sections are fetched and come back empty, the previous section stays selected though unlisted, and an upload records the file under it |
| Files.SwitchToEmptyModule | src/pages/admin/Files.jsx:19-49 | with the clearing fetch, the same steps leave no unlisted selection and the upload is refused |
| Modules.NumberedRows | src/pages/admin/Modules.jsx:60-64 | one row per name, in order, numbered from `start`, each pointing at the module |
| Modules.SectionRows | src/pages/admin/Modules.jsx:60-64 | exactly four rows: Cours, TP, TD, Examens, numbered 0 to 3, for the module |
| Modules.SectionsOf | src/pages/admin/Modules.jsx:163 | the rows selected for a module are exactly the table's rows of that module: each selected row is in the table and belongs to the module, and each row of the module in the table is selected |
| Modules.SectionsOfAppend | src/pages/admin/Modules.jsx:163-170 | selecting a module's rows distributes over appending rows to the table |
| Modules.NumberedRowsBelong | src/pages/admin/Modules.jsx:60-64 | every row built for a module is selected for it |
| Modules.FillsEmptyModule | src/pages/admin/Modules.jsx:162-175 | inserting the defaults into a table with none of the module's sections leaves it exactly the four defaults in order |
| Modules.NumberedRowsForeign | src/pages/admin/Modules.jsx:60-64 | rows built for one module hold nothing of another |
| Modules.OtherModuleUntouched | src/pages/admin/Modules.jsx:66-67 | inserting another module's defaults leaves this module's sections unchanged |
| Modules.Repair | src/pages/admin/Modules.jsx:162-175 | query the sections; insert the defaults only for an empty answer (a null answer counts as existing), with the success alert whatever the insert's outcome |
| Modules.RepairTwice | src/pages/admin/Modules.jsx:162-175 | repairing twice fills the module once: the second run reports that the sections exist |
| Modules.ModulesPage.constructor | src/pages/admin/Modules.jsx:8-14 | empty list, no group, modal closed, empty form |
| Modules.ModulesPage.OpenModal | src/pages/admin/Modules.jsx:90-99 | editing prefills the form from the module (a null description as ''); creating starts an empty form in the selected group; the modal opens |
| Modules.ModulesPage.HandleSubmit | src/pages/admin/Modules.jsx:43-75 | editing sends one update. Creating inserts the module, then the four sections under the new id only once the module exists. Success closes the modal and refetches; any failure alerts and keeps it open |
| Modules.ModulesPage.HandleDelete | src/pages/admin/Modules.jsx:77-88 | nothing without confirmation; otherwise one delete, then a refetch with the success alert, or the failure alert |
| Modules.CreateModule | src/pages/admin/Modules.jsx:43-99 | the empty form, submitted with every call succeeding, creates the module in the selected group with its four sections and closes the modal |
| Settings.BuildUpdate | src/pages/admin/Settings.jsx:72-91 | mismatch refused exactly when a password is given and differs from its confirmation. Too short refused exactly when it matches and has fewer than six characters. Otherwise the email is sent iff given and the password iff given. Nothing is sent iff both are empty |
| Settings.ErrorText | src/pages/admin/Settings.jsx:80-87 | each refusal has a non-empty message |
| Settings.WriteOf | src/pages/admin/Settings.jsx:44-54 | a save writes the title and the timetable URL and no other column |
| Settings.FetchApplies | src/pages/admin/Settings.jsx:31-32 | a fetched row is taken only when the query reported no error or the `PGRST116` "no row" code |
| Settings.SuccessMessage | src/pages/admin/Settings.jsx:99-105 | the message names exactly the fields sent: both, the email only, or the password only |
| Settings.SettingsPage.constructor | src/pages/admin/Settings.jsx:6-16 | the default title and empty timetable; loading; empty fields and messages |
| Settings.SettingsPage.OnSettingsFetched | src/pages/admin/Settings.jsx:28-38 | a returned row replaces the settings unless the query reported an error other than "no row"; loading ends either way |
| Settings.SettingsPage.OnUserFetched | src/pages/admin/Settings.jsx:20-24 | the user's email fills the email field when there is a user |
| Settings.SettingsPage.HandleSubmit | src/pages/admin/Settings.jsx:40-65 | update by id when the settings have one, insert otherwise; only title and timetable URL are written; success refetches; saving ends either way |
| Settings.SettingsPage.HandleAuthUpdate | src/pages/admin/Settings.jsx:67-115 | both messages cleared. A refused form shows its error and sends nothing; an empty update sends nothing. Otherwise exactly the validated update is sent. Success shows the matching message and clears the password fields; failure shows the service's message or the fallback. Saving ends |
| Settings.ChangePasswordTwice | src/pages/admin/Settings.jsx:67-115 | a valid password goes out with the email; the next submit, with the fields cleared, sends the email alone |
| Announcements.SubmitBlocked | src/pages/admin/Announcements.jsx:92-93 | the handler's early return: text mode without text, or audio mode without a recording |
| Announcements.SubmitDisabled | src/pages/admin/Announcements.jsx:327 | the button is disabled exactly while uploading or when the handler would return early |
| Announcements.AudioPath | src/pages/admin/Announcements.jsx:101-104 | the voice note is stored under `announcements/ann-` and ends in `.webm` |
| Announcements.ImagePath | src/pages/admin/Announcements.jsx:116-119 | the image is stored under `announcements/img-` and ends with a dash and the file's name |
| Announcements.PathsInFolder | src/pages/admin/Announcements.jsx:104-119 | both kinds of object land in the `announcements/` folder |
| Announcements.AudioAndImageApart | src/pages/admin/Announcements.jsx:101-116 | a voice note and an image never share a path |
| Announcements.AudioPathsDistinct | src/pages/admin/Announcements.jsx:101 | voice notes recorded at different times get different paths |
| Announcements.Composer.constructor | src/pages/admin/Announcements.jsx:10-18 | text mode, empty draft, not uploading |
| Announcements.Composer.SetMode | src/pages/admin/Announcements.jsx:204-211 | the mode buttons set the mode |
| Announcements.Composer.HandleFileSelect | src/pages/admin/Announcements.jsx:70-78 | only a file whose MIME type starts with `audio/` becomes the audio draft, with its preview; anything else is refused and changes nothing |
| Announcements.Composer.HandleImageSelect | src/pages/admin/Announcements.jsx:80-88 | only a file whose MIME type starts with `image/` becomes the image draft, with its preview; anything else is refused and changes nothing |
| Announcements.Composer.ClearAudio | src/pages/admin/Announcements.jsx:273 | the voice note and its preview are dropped |
| Announcements.Composer.ClearImage | src/pages/admin/Announcements.jsx:308 | the image and its preview are dropped |
| Announcements.Composer.HandleAdd | src/pages/admin/Announcements.jsx:90-152 | nothing when blocked. The voice note is uploaded only in audio mode, the image whenever attached, each URL used only after its upload succeeded. Any failure stops before the insert with its message or the fallback and keeps the draft. Success empties the draft and refetches. Uploading ends |
| Announcements.TextWithImage | src/pages/admin/Announcements.jsx:90-152 | a typed announcement with an image carries the text and the image URL but no audio URL, even with a voice note still attached |
| LevelGroups.FeedOf | src/pages/public/LevelGroups.jsx:96-97 | the newest announcement and the rest together make up the list |
| LevelGroups.PanelOf | src/pages/public/LevelGroups.jsx:108-208 | hidden exactly for an empty list. The newest item is on top; its image and voice note show only when expanded and present; older items show only when expanded. The expand button shows exactly when expanding reveals something |
| LevelGroups.PlainSingleHasNoButton | src/pages/public/LevelGroups.jsx:199 | a single plain text announcement shows no expand button and nothing else |
| LevelGroups.FeedView.constructor | src/pages/public/LevelGroups.jsx:62-64 | empty list, loading, collapsed |
| LevelGroups.FeedView.OnFetched | src/pages/public/LevelGroups.jsx:77-81 | the list (empty when none came back); loading ends |
| LevelGroups.FeedView.ToggleExpanded | src/pages/public/LevelGroups.jsx:201 | the button flips the expanded flag |
| LevelGroups.FeedView.View | src/pages/public/LevelGroups.jsx:108 | nothing is shown while loading |
| LevelGroups.ToggleTwice | src/pages/public/LevelGroups.jsx:201 | two clicks restore the panel |
| LevelGroups.AudioPlayer.constructor | src/pages/public/LevelGroups.jsx:9 | not playing |
| LevelGroups.AudioPlayer.TogglePlay | src/pages/public/LevelGroups.jsx:24-32 | a playing element is paused, a paused one played, the flag flipped, and the flag keeps matching the element |
| LevelGroups.AudioPlayer.Ended | src/pages/public/LevelGroups.jsx:17 | the end of playback turns the flag off |
| LevelGroups.ListenTwice | src/pages/public/LevelGroups.jsx:17-32 | after a note runs out, the next click plays it again |
| AdminLayout.MenuPaths | src/layouts/AdminLayout.jsx:44-52 | seven menu routes, in order, pairwise distinct, all under `/admin/` |
| AdminLayout.Step | src/layouts/AdminLayout.jsx:12-21 | either event replaces the session; only the initial answer ends loading |
| AdminLayout.ViewOf | src/layouts/AdminLayout.jsx:31-42 | the loading view exactly while loading; then the redirect to the login page exactly without a session, the shell exactly with one |
| AdminLayout.LoadingUntilInitialAnswer | src/layouts/AdminLayout.jsx:12-38 | auth changes arriving before the initial answer still show only loading |
| AdminLayout.LoadedStaysLoaded | src/layouts/AdminLayout.jsx:17-21 | once the initial answer arrived, loading never returns |
| AdminLayout.LatestEventWins | src/layouts/AdminLayout.jsx:12-21 | the latest event decides the session |
| AdminLayout.SignOutRedirects | src/layouts/AdminLayout.jsx:17-42 | a sign-out reported after the initial answer redirects to the login page |
| AdminLayout.AdminShell.constructor | src/layouts/AdminLayout.jsx:7-8 | no session, loading |
| AdminLayout.AdminShell.OnInitialSession | src/layouts/AdminLayout.jsx:12-16 | the step of the initial answer |
| AdminLayout.AdminShell.OnAuthStateChange | src/layouts/AdminLayout.jsx:17-21 | the step of an auth change |
| AdminLayout.AdminShell.HandleSignOut | src/layouts/AdminLayout.jsx:26-29 | sign out, then go to the login page |
| AdminLayout.ChangeBeforeAnswer | src/layouts/AdminLayout.jsx:12-42 | an early auth change shows nothing; the initial answer then decides between shell and redirect |
| Login.OnMount | src/pages/admin/Login.jsx:14-20 | the page goes to the dashboard exactly when there is a session |
| Login.LoginPage.constructor | src/pages/admin/Login.jsx:8-11 | empty fields, not loading, no error |
| Login.LoginPage.SubmitDisabled | src/pages/admin/Login.jsx:114 | the submit button is disabled exactly while a sign-in is under way |
| Login.LoginPage.BeginLogin | src/pages/admin/Login.jsx:22-30 | loading on, error cleared, the button disabled, the form's credentials sent |
| Login.LoginPage.CompleteLogin | src/pages/admin/Login.jsx:32-37 | a failure shows the fixed message, ends loading and enables the button again; a success goes to the dashboard |
| Login.RetryAfterFailure | src/pages/admin/Login.jsx:22-114 | the button is disabled during a sign-in, enabled after a failure, and the next attempt clears the error |

## Left out

- The hosted service itself: queries, filters, ordering, cascade deletes, row ids and URLs. Handlers receive outcomes and URLs as parameters and return the requests they send.
- Routing, rendering, styling, icons and animation. Navigation is a returned path; views are only the data they show.
- `Date.now()` and `Math.random()` are parameters. The random file name is its rendered text.
- `window.confirm` is the `confirmed` parameter. The alerts of the file, module, announcement and settings-form handlers are `Notice` values; only the account form's messages on the settings page and the login error are kept as their text.
- Console logging. The outcome of the storage removal in the file deletion is only logged, so it is not an input.
- Recording (MediaRecorder), `URL.createObjectURL` (the preview URL is a parameter), the HTML audio element beyond play/pause, the rejection of `play()`, and the pause on unmount.
- The ordering of React state updates and effects between awaits: each handler is one atomic step of the model. `Promise.all` in the public page's fetch is a single result.
- Modules.ModulesPage: the initial fetch of levels, groups and modules, and the effect on the selected group, are not modelled. They are plain loads of query results.
- The duplicated loading branch of the module page and the other admin and public pages (dashboard, levels, groups, public listings) are not part of this model.
- The announcement list's own fetch and delete, and the level selector effects, are not part of this model.
- Text.ToLower: maps only the ASCII letters A-Z.
- Settings.BuildUpdate: counts `|newPassword|` in Dafny characters, whereas JavaScript `.length` counts UTF-16 code units.
- A null `description` is `None`, and a null `timetable_url` is the empty string. The timetable link only tests it for truthiness, but a settings save (Settings.jsx:44-56) writes the empty string back where the page would write back null.
- PublicLayout.Click: times are unbounded integers; the safe-integer limits of `Date.now()` are not modelled.
- The upload progress and any file size checks are not modelled.

## Findings

| source | as written | input that shows it | evidently intended | confidence | as-written member | corrected member |
|---|---|---|---|---|---|---|
| src/pages/admin/Files.jsx:36-40 | `fetchSections` sets the selection only when sections came back, so an empty list keeps the previous module's section selected | select a module with section `s`, switch to a module with no sections, then upload a file with a title | the selection is cleared when the new module has no sections, so the upload is refused | not executed | Files.StaleSectionUpload | Files.SwitchToEmptyModule |
