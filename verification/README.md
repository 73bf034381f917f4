# RetailVista frontend — a Dafny model of its page logic

RetailVista is a retail-security web application. Its React frontend shows
live camera feeds, raises a shoplifting alarm when the backend reports a new
alert, and has pages for alert history, promotions, store maps, people
counting, user administration and account forms. This project models the
decision logic of that frontend as immutable state records and pure
transition functions, and proves properties of them. It leaves out the
rendering.

The live alert (`src/components/ShopliftingAlert.jsx`) is the centre of the
model. It covers:

- the novelty and throttle filter (`AlertFilter`);
- the alarm's state machine with its timers (`AlertPresenter`);
- whole runs of events (`AlertRuns`).

Around it are the page rules:

- paging (`Pagination`) and the alert history (`RecentActivity`);
- user administration (`AdminDashboard`) and promotions (`Promotions`);
- the account forms (`Signup`, `ResetPassword`, `Profile`, `Contact`), with their shared character and password rules in `Validators`;
- the FAQ accordion (`Faqs`) and the store-map upload (`UploadMap`);
- the camera pages (`PeopleCounter`, `AgeGender`, `ShopliftingDetection`).

`Common` holds the JavaScript semantics the pages rely on:

- truthiness of optional strings;
- the `\s` whitespace class and `trim`;
- ASCII `toLowerCase`;
- `includes` and `indexOf`;
- `filter`;
- the UTF-16 `length`.

Time is an explicit `now` parameter in milliseconds. Every server answer,
the stored browser data and the presence of an access token are parameters
of the operation that consumes them.

## Model

| member | source | states |
|---|---|---|
| Common.Utf16Length | src/pages/Signup.jsx:29 | a string's `length` counts every character once, or twice outside the Basic Multilingual Plane; it equals the character count when all characters are in that plane |
| Common.TrimEmptyIffBlank | src/pages/UploadMap.jsx:40 | `!s.trim()` holds exactly when the string is whitespace only |
| Common.TrimOfPadded | src/pages/AgeGenderDetection.jsx:357 | a visible core between whitespace margins trims to exactly that core |
| Common.IndexOfChar | src/pages/RecentActivity.jsx:210 | `indexOf` of a character is -1 exactly when it is absent; otherwise it is a position holding it with no earlier occurrence |
| Common.Filter | src/pages/AdminDashboard.jsx:122-127 | `filter` returns only elements passing the test, contains every passing element, and keeps the input's order |
| Common.FilterCounts | src/pages/AdminDashboard.jsx:122-127 | each passing element is kept exactly as often as it occurs in the input, and every occurrence of a failing one is dropped |
| Faqs.Toggle | src/components/Faqs.jsx:33-35 | a click flips the clicked answer and leaves every other answer closed |
| Faqs.OpenAnswers | src/components/Faqs.jsx:70 | at most one answer is rendered; none exactly when nothing on the page is open |
| Faqs.InitiallyNothingShown | src/components/Faqs.jsx:4 | the page loads with every answer closed |
| Faqs.ClickLeavesAtMostTheClickedAnswer | src/components/Faqs.jsx:33-35 | after any click, only the clicked answer is shown, or nothing when it was open |
| Faqs.ToggleTwiceRestores | src/components/Faqs.jsx:33-35 | two clicks on one question undo each other when it was the open one or nothing was open |
| Faqs.ToggleTwiceFromOtherClosesAll | src/components/Faqs.jsx:33-35 | from another open answer, two clicks close everything rather than restoring that answer |
| UploadMap.ValidateIframeCode | src/pages/UploadMap.jsx:39-51 | a blank code is missing, a code lacking `<iframe` or `</iframe>` is malformed, and every other code is valid (each as an if-and-only-if) |
| UploadMap.Loaded | src/pages/UploadMap.jsx:15-37 | each saved field replaces the form's only when present and non-empty |
| UploadMap.SaveDisabled | src/pages/UploadMap.jsx:154 | Save is disabled exactly for a blank code or while saving |
| UploadMap.DisabledExactlyOnMissingOrBusy | src/pages/UploadMap.jsx:39-43 | the disabled rule coincides with the "missing code" verdict or a save in progress |
| UploadMap.Answered | src/pages/UploadMap.jsx:143-152 | the answered save ends the busy state, reports success exactly on success, and keeps the form |
| UploadMap.ClickSaveAsWritten | src/pages/UploadMap.jsx:128-154 | the enabled button posts the code and link as typed, without validation |
| UploadMap.SaveAsWrittenPostsMalformedCode | src/pages/UploadMap.jsx:128-154 | the code "map" is malformed yet is posted |
| UploadMap.ClickSave | src/pages/UploadMap.jsx:39-51 | with validation applied, the code is posted exactly when not saving and valid; a malformed code shows its message instead |
| UploadMap.SavePostsOnlyIframeCode | src/pages/UploadMap.jsx:45-48 | every posted code carries both iframe tags, and the corrected save posts exactly when the as-written one does and the tags are present |
| PeopleCounter.ActiveCameras | src/pages/peoplecounter.jsx:341 | exactly the cameras with a truthy id are kept, each as often as it is listed, in order |
| PeopleCounter.ConnectCameraPath | src/pages/peoplecounter.jsx:355-371 | a blank video path is refused; any other path is sent exactly as typed |
| PeopleCounter.PathSentUntrimmed | src/pages/peoplecounter.jsx:359-370 | a path with a leading space passes the guard and is sent with the space |
| PeopleCounter.Pairs | src/pages/peoplecounter.jsx:481-482 | the serialised polygon lists the x,y pair of every point in order |
| PeopleCounter.PairsRoundTrip | src/pages/peoplecounter.jsx:481-482 | reading the pairs back gives the polygon's points |
| PeopleCounter.ConnectWithPolygons | src/pages/peoplecounter.jsx:473-518 | nothing happens while the dialog is closed; anything but two quadrilaterals is refused; otherwise both polygons are sent, and only success resets and closes the dialog |
| PeopleCounter.Click | src/pages/peoplecounter.jsx:423-471 | a click appends its point; the fourth entry point finishes the entry area; the fourth exit point attempts a connection with exactly those exit points |
| PeopleCounter.ClickKeepsInv | src/pages/peoplecounter.jsx:461-470 | while drawing the entry area fewer than four points are pending; afterwards the entry area has four points |
| PeopleCounter.OpenedSatisfiesInv | src/pages/peoplecounter.jsx:655-689 | the dialog as opened and as closed satisfies that invariant |
| PeopleCounter.ClicksNeverIncomplete | src/pages/peoplecounter.jsx:484-487 | clicking through the open dialog never reaches the "draw both areas" refusal |
| PeopleCounter.ClosedNeverConnects | src/pages/peoplecounter.jsx:474 | on a closed dialog's state, every connect attempt is skipped |
| PeopleCounter.ClicksQuietStep | src/pages/peoplecounter.jsx:423-471 | a click that attempts nothing only advances the drawing |
| PeopleCounter.FourClicksDrawEntry | src/pages/peoplecounter.jsx:461-465 | the first four clicks of a fresh dialog are the entry area and attempt nothing |
| PeopleCounter.FailedConnectBlocksRetry | src/pages/peoplecounter.jsx:466-469 | after a failed connection the exit points stay pending, so later clicks never finish a polygon or attempt again |
| PeopleCounter.FailedExitClickBlocks | src/pages/peoplecounter.jsx:510-517 | a failed exit click sends its request and leaves that blocked state behind |
| AgeGender.LowerKeepsBlank | src/pages/AgeGenderDetection.jsx:357 | lower-casing neither creates nor removes whitespace |
| AgeGender.LowerSlice | src/pages/AgeGenderDetection.jsx:357 | lower-casing commutes with slicing |
| AgeGender.WebcamWitness | src/pages/AgeGenderDetection.jsx:357 | a lower-cased "webcam" between blanks witnesses a webcam spelling |
| AgeGender.WebcamTestSound | src/pages/AgeGenderDetection.jsx:357 | a path passing the webcam test is "webcam" in some letter case between whitespace |
| AgeGender.WebcamSpellingLowered | src/pages/AgeGenderDetection.jsx:357 | a webcam spelling lower-cases to "webcam" between blanks |
| AgeGender.WebcamTestComplete | src/pages/AgeGenderDetection.jsx:357 | every such spelling passes the test |
| AgeGender.WebcamTestIff | src/pages/AgeGenderDetection.jsx:357 | the test holds exactly for the webcam spellings |
| AgeGender.VideoPathSent | src/pages/AgeGenderDetection.jsx:357-364 | a webcam spelling is sent as device "0"; any other path is sent as typed |
| AgeGender.WebcamExamples | src/pages/AgeGenderDetection.jsx:357-364 | " WebCam\n" becomes "0"; "webcam2" is sent unchanged |
| AgeGender.DeleteCamera | src/pages/AgeGenderDetection.jsx:393-413 | a successful delete drops exactly the cameras with that id, keeping order, and goes to the analysis view exactly when the list empties; a failed one changes nothing |
| AgeGender.PolledIds | src/pages/AgeGenderDetection.jsx:445-452 | only cameras with a truthy id are polled, and every such camera is |
| AgeGender.PolledIdsComeFromCameras | src/pages/AgeGenderDetection.jsx:448-451 | an id is polled exactly when it is non-empty and belongs to a listed camera |
| AgeGender.DeletedCameraStopsPolling | src/pages/AgeGenderDetection.jsx:403-412 | after a successful delete the deleted id is no longer polled, and every other id keeps its polling |
| ShopliftingDetection.PollFrame | src/pages/ShopliftingDetection.jsx:135-158 | a delivered frame replaces the image and stamps it now; anything else leaves the element alone |
| ShopliftingDetection.CheckStuckFrames | src/pages/ShopliftingDetection.jsx:161-175 | an image stamped more than ten seconds ago is blanked and restamped; nothing else changes |
| ShopliftingDetection.UnstampedNeverStuck | src/pages/ShopliftingDetection.jsx:163 | an image never stamped is never blanked |
| ShopliftingDetection.ResetGivesTenSeconds | src/pages/ShopliftingDetection.jsx:170-172 | a blanked image is left alone by every check in the next ten seconds |
| ShopliftingDetection.RefreshSurvivesTenSeconds | src/pages/ShopliftingDetection.jsx:144-149 | a refreshed image survives exactly the checks up to ten seconds after the refresh |
| ShopliftingDetection.Run | src/pages/ShopliftingDetection.jsx:177-190 | polls and checks never add or remove the image element |
| ShopliftingDetection.ChecksWithinWindowKeepImage | src/pages/ShopliftingDetection.jsx:161-175 | any series of checks within ten seconds of a refresh keeps the image |
| AlertFilter.Remember | src/components/ShopliftingAlert.jsx:95 | adding to the processed set appends only a new id and keeps it duplicate-free |
| AlertFilter.ReadStored | src/components/ShopliftingAlert.jsx:118 | a missing persisted list reads as empty; only an unreadable one fails |
| AlertFilter.ShouldProcess | src/components/ShopliftingAlert.jsx:105-137 | an alert is accepted exactly when it is unseen (in memory, as the last id, or persisted) and not within 30 s of the last one; only a persisted hit adds to the set |
| AlertFilter.Evict | src/components/ShopliftingAlert.jsx:482-486 | above 100 ids, exactly the 50 most recent are kept; otherwise nothing changes |
| AlertFilter.EvictKeepsNewest | src/components/ShopliftingAlert.jsx:477-490 | the sweep keeps a duplicate-free suffix of at most 100 ids |
| AlertFilter.EvictionForgetsAcceptedId | src/components/ShopliftingAlert.jsx:482-486 | the sweep can forget an accepted id, which then passes the novelty check again |
| AlertPresenter.ForceStop | src/components/ShopliftingAlert.jsx:245-289 | stopping silences the sound and cancels only the safety-stop timers |
| AlertPresenter.PlayAlertSound | src/components/ShopliftingAlert.jsx:167-242 | the sound starts exactly when the user has not stopped it, and then the 30-second safety stop is armed |
| AlertPresenter.ProcessNewAlert | src/components/ShopliftingAlert.jsx:140-164 | ignored during the load window or for a queued or held id; otherwise shown with sound when nothing is visible, else appended to the queue; the state invariant is kept |
| AlertPresenter.DrainQueue | src/components/ShopliftingAlert.jsx:441-452 | when idle, the queue head moves on screen with sound; otherwise nothing changes |
| AlertPresenter.DismissAlert | src/components/ShopliftingAlert.jsx:584-609 | a dismissal silences the alarm, sets the user stop and arms the 300 ms hide; the alert stays visible until then |
| AlertPresenter.ViewAlert | src/components/ShopliftingAlert.jsx:548-582 | either view button dismisses and pauses polling for 5 s |
| AlertPresenter.ViewDestination | src/components/ShopliftingAlert.jsx:563 | View Camera goes to the detection page and View Evidence goes to the history page |
| AlertPresenter.RouteChange | src/components/ShopliftingAlert.jsx:493-513 | a route change hides and clears a visible alert at once with the user stop set; otherwise nothing changes |
| AlertPresenter.Watchdog | src/components/ShopliftingAlert.jsx:455-474 | a rendered alert's dead sound is restarted unless the user stopped it |
| AlertPresenter.RemoveAt | src/components/ShopliftingAlert.jsx:600-608 | a fired timeout leaves the pending list and every other one stays |
| AlertPresenter.FireTimer | src/components/ShopliftingAlert.jsx:600-608 | a due timeout does its kind's effect; none of them starts a sound or shows an alert |
| AlertPresenter.TimerAction | src/components/ShopliftingAlert.jsx:223-228 | the hide arms the 1 s cooldown; the cooldown clears the user stop; the window ends; the safety stop silences an unstopped sound; polling resumes |
| AlertPresenter.Poll | src/components/ShopliftingAlert.jsx:38-102 | a paused poll, a missing token, a failed request or a non-success status changes nothing. During the load window the id is recorded and becomes the last alert id, and nothing is shown. For an inactive camera only the id is recorded. An alert the novelty check rejects changes nothing but what that check records. Processed ids are never lost |
| AlertPresenter.FirstClick | src/components/ShopliftingAlert.jsx:403-409 | the first click ends the load window and polls; later clicks do nothing |
| AlertPresenter.EvictionSweep | src/components/ShopliftingAlert.jsx:477-490 | the sweep touches only the processed set and invents no id |
| AlertPresenter.Heartbeat | src/components/ShopliftingAlert.jsx:536-538 | the heartbeat stores the current time and changes nothing else |
| AlertPresenter.MountAsWritten | src/components/ShopliftingAlert.jsx:389-420 | mounting arms the 5-second window timer whether or not a reload was detected |
| AlertPresenter.Mount | src/components/ShopliftingAlert.jsx:516-532 | mounting starts quiet and arms one window timer: 10 s after a reload, 5 s otherwise |
| AlertPresenter.IsReload | src/components/ShopliftingAlert.jsx:518-524 | a mount is a reload when a stored session time exists and is less than 3000 ms old |
| AlertPresenter.ReloadBoundary | src/components/ShopliftingAlert.jsx:518-524 | no stored time means a normal load; a time 2999 ms old means a reload; one 3000 ms old does not |
| AlertRuns.Step | src/components/ShopliftingAlert.jsx:351-362 | every event, including the Escape key and the close button, keeps the state invariant |
| AlertRuns.Run | src/components/ShopliftingAlert.jsx:423-438 | any sequence of events keeps the state invariant |
| AlertRuns.QueueIsFifo | src/components/ShopliftingAlert.jsx:161 | each event leaves the queue alone, appends one alert, or moves its head on screen |
| AlertRuns.UserStopOnlyYieldsToNewAlert | src/components/ShopliftingAlert.jsx:156-158 | while the user stop is set, only a newly shown alert starts the sound |
| AlertRuns.PollAdmitsOnlyNovel | src/components/ShopliftingAlert.jsx:89-96 | a poll either admits nothing or admits the fetched alert, which was unprocessed before, to the queue end or the screen |
| AlertRuns.AcceptedPollAdmitsNovel | src/components/ShopliftingAlert.jsx:90-95 | an accepted, delivered alert is admitted as novel |
| AlertRuns.RejectedPollChangesNothingShown | src/components/ShopliftingAlert.jsx:89-96 | a delivered alert that was already seen or arrives within the 30-second throttle is not shown, queued or sounded; outside the load window the last alert's id and time are unchanged |
| AlertRuns.NothingShownAdmitsNothing | src/components/ShopliftingAlert.jsx:53-87 | a poll that leaves queue, screen and sound alone admits nothing |
| AlertRuns.AcceptedAlertIsNovel | src/components/ShopliftingAlert.jsx:90-95 | an accepted unprocessed alert is recorded and shown or queued |
| AlertRuns.PollKeepsDedup | src/components/ShopliftingAlert.jsx:38-102 | a poll keeps the invariant that every shown id is processed and never queued again |
| AlertRuns.ShownNovelKeepsDedup | src/components/ShopliftingAlert.jsx:152-158 | showing an unprocessed, now recorded alert keeps the dedup invariant |
| AlertRuns.QueuedNovelKeepsDedup | src/components/ShopliftingAlert.jsx:159-162 | queueing an unprocessed, now recorded alert keeps the dedup invariant |
| AlertRuns.QuietStepKeepsDedup | src/components/ShopliftingAlert.jsx:455-474 | a step that shows nothing new keeps the dedup invariant |
| AlertRuns.DrainKeepsDedup | src/components/ShopliftingAlert.jsx:441-452 | showing the queue head, which was never shown, keeps the dedup invariant |
| AlertRuns.FirstClickKeepsDedup | src/components/ShopliftingAlert.jsx:403-407 | the first click keeps the dedup invariant |
| AlertRuns.StepKeepsDedup | src/components/ShopliftingAlert.jsx:38-164 | every event but the eviction sweep keeps the dedup invariant |
| AlertRuns.RunKeepsDedup | src/components/ShopliftingAlert.jsx:38-164 | so do whole runs without a sweep |
| AlertRuns.NoAlertShownTwice | src/components/ShopliftingAlert.jsx:105-114 | from mount, with no eviction sweep, no alert id is brought on screen twice |
| AlertRuns.NoAlertShownTwiceAsWritten | src/components/ShopliftingAlert.jsx:105-114 | the same holds from the mount as written, whose load window can end after 5 seconds |
| AlertRuns.StepKeepsQuiet | src/components/ShopliftingAlert.jsx:56-67 | inside the suppression window, no event but a click shows, queues or sounds anything |
| AlertRuns.RunKeepsQuiet | src/components/ShopliftingAlert.jsx:141-145 | the same holds for any run of such events |
| AlertRuns.ReloadSuppressesTenSeconds | src/components/ShopliftingAlert.jsx:524-531 | after a detected reload, with no click, nothing is shown, queued or sounded for ten seconds |
| AlertRuns.ReloadWindowEndsAtFiveSecondsAsWritten | src/components/ShopliftingAlert.jsx:412-414 | as written, an alert polled six seconds after a reload is shown with sound |
| AlertRuns.DismissPhases | src/components/ShopliftingAlert.jsx:599-608 | dismissal is silent at once, hidden after 300 ms, and the user stop is lifted 1000 ms later with the sound still off |
| AlertRuns.SafetyStopIsUndoneByWatchdog | src/components/ShopliftingAlert.jsx:223-228 | the 30-second stop silences a rendered alert only until the next watchdog tick restarts it |
| AlertRuns.NovelAlertIsShown | src/components/ShopliftingAlert.jsx:90-96 | a novel, unthrottled alert from an active camera is shown with sound and becomes the last alert |
| AlertRuns.SecondAlertIsQueued | src/components/ShopliftingAlert.jsx:159-162 | an alert arriving while another is shown goes to the end of the queue |
| Pagination.PageSizeOptionsArePositive | src/components/Pagination.jsx:16 | the offered sizes are positive and increasing |
| Pagination.SelectPageSize | src/components/Pagination.jsx:13-20 | a chosen option is one of 5, 10, 20 and 25 |
| Pagination.TotalPages | src/components/Pagination.jsx:4 | the page count is the least number of pages that holds every item |
| Pagination.PageNumbers | src/components/Pagination.jsx:5 | the buttons are numbered 1 to the page count, increasing |
| Pagination.ExactlyOneHighlighted | src/components/Pagination.jsx:38 | exactly one button is highlighted on a real page, none otherwise |
| Pagination.Previous | src/components/Pagination.jsx:25-31 | Previous is disabled exactly on page 1 and asks for the page before |
| Pagination.Next | src/components/Pagination.jsx:47-53 | Next is disabled exactly when the current page equals the page count and asks for the page after |
| Pagination.EnabledNavStaysInRange | src/components/Pagination.jsx:25-53 | from a real page, an enabled button asks for a real page |
| Pagination.EmptyListLeavesNextEnabled | src/components/Pagination.jsx:49 | with no items there are no buttons, yet Next stays enabled and asks for page 2 |
| Pagination.ResolveIndex | src/pages/RecentActivity.jsx:95 | a slice bound counts from the end when negative and is clamped to the list |
| Pagination.JsSlice | src/pages/RecentActivity.jsx:95 | the slice is the run between the resolved bounds, or empty |
| Pagination.PageSlice | src/pages/RecentActivity.jsx:93-95 | a real page shows its run of items, cut at the list end; page 0 shows nothing |
| Pagination.SliceWindow | src/pages/ManagePromotions.jsx:132-134 | a slice window holds at most its width, only list items, and nothing when it ends at 0 |
| Pagination.PageBounds | src/pages/AdminDashboard.jsx:153-154 | a real page's first index is non-negative and below its last |
| Pagination.PrefixThenRun | src/pages/AdminDashboard.jsx:153-155 | a prefix followed by the next run is the longer prefix |
| Pagination.FirstPagesArePrefix | src/pages/RecentActivity.jsx:93-95 | the first k pages together are the first k·n items |
| Pagination.PagesCoverList | src/pages/RecentActivity.jsx:93-95 | pages 1 to the page count list every item exactly once, in order |
| Pagination.PagesNonEmptyExactlyInRange | src/pages/RecentActivity.jsx:93-95 | a page is non-empty exactly when it is a real page |
| Pagination.ChangePageSize | src/pages/RecentActivity.jsx:101-104 | a size change takes effect and returns to page 1 |
| Pagination.ChangePage | src/pages/RecentActivity.jsx:97-99 | a page change changes only the page |
| Pagination.PageSizeChangeShowsFirstItems | src/pages/ManagePromotions.jsx:140-143 | after a size change the list shows its first n items |
| RecentActivity.Insert | src/pages/RecentActivity.jsx:66-75 | inserting into a sorted list keeps it sorted and adds exactly that alert |
| RecentActivity.InsertBehindHead | src/pages/RecentActivity.jsx:66-75 | insertion behind the head keeps the order and the contents |
| RecentActivity.ConsSorted | src/pages/RecentActivity.jsx:66-75 | an alert preceding a sorted list may head it |
| RecentActivity.HeadPrecedesInsert | src/pages/RecentActivity.jsx:66-75 | the head precedes every alert inserted behind it |
| RecentActivity.Sort | src/pages/RecentActivity.jsx:66-75 | the sort returns a permutation ordered by timestamp |
| RecentActivity.ApplyFilters | src/pages/RecentActivity.jsx:62-78 | the display list is the fetched list, newest first exactly for "newest" |
| RecentActivity.Fetch | src/pages/RecentActivity.jsx:34-59 | only a successful fetch with a token replaces the alerts, and the display stays their sorted copy |
| RecentActivity.SetSortOrder | src/pages/RecentActivity.jsx:88-90 | a new order re-sorts the same alerts |
| RecentActivity.CurrentItems | src/pages/RecentActivity.jsx:93-95 | the current page holds at most n displayed alerts |
| RecentActivity.ItemsPerPageChange | src/pages/RecentActivity.jsx:101-104 | a size change returns to page 1 and keeps the alerts |
| RecentActivity.ConfirmReview | src/pages/RecentActivity.jsx:119-122 | the picked alert is remembered and the confirmation opens |
| RecentActivity.AppendStored | src/pages/RecentActivity.jsx:155-162 | the reviewed id is appended to a readable persisted list; an unreadable one is left alone |
| RecentActivity.MarkAsReviewed | src/pages/RecentActivity.jsx:124-197 | a successful review removes every alert with that id and keeps every other alert as often as it occurred, in order, and persists the id; the confirmation closes either way |
| RecentActivity.ReviewedAlertIsNotRenotified | src/pages/RecentActivity.jsx:155-162 | after a review, the live alert's novelty check rejects that id whatever its memory and the time |
| RecentActivity.DownloadHref | src/pages/RecentActivity.jsx:199-214 | no link without a clip; otherwise the anchor's resolved `href`, then `&` if it already has a `?` and `?` if not, then `t=` and the stamp |
| RecentActivity.IndexOfCharAppend | src/pages/RecentActivity.jsx:210 | the first occurrence in a concatenation lies in its first part if it can |
| RecentActivity.CacheBusterKeepsOneQuery | src/pages/RecentActivity.jsx:210-214 | the link's first `?` is the resolved URL's own or the one just added |
| Validators.NameCharsAreCompanyTitleChars | src/pages/Signup.jsx:40-41 | every acceptable name is an acceptable company or title |
| Validators.PhoneLengthIsCharCount | src/components/Contact.jsx:25 | for a digit string the 11-unit limit is an 11-character limit |
| Validators.HasClass | src/pages/Signup.jsx:30-32 | the class test holds exactly when some character is in the class |
| Validators.ValidatePassword | src/pages/Signup.jsx:27-34 | each flag says its own requirement: 8 units, an upper-case letter, a digit, a special character |
| Validators.PasswordValidIff | src/pages/Signup.jsx:62-64 | the password is valid exactly when all four requirements hold |
| Validators.EmptyPasswordHasNoFlags | src/pages/Signup.jsx:91-96 | the empty password raises no flag |
| Validators.InnerDot | src/pages/Profile.jsx:77 | a found dot is an inner one; none found means no inner dot |
| Validators.CheckEmail | src/pages/Profile.jsx:77-78 | the regex test as a scan: no whitespace, a first `@` that is not the first character, no later `@`, and a dot strictly inside the domain part (proved equal to the regex by `Validators.CheckEmailMatchesPattern`) |
| Validators.SliceIsEmailPart | src/pages/Profile.jsx:77 | a non-empty run of `[^\s@]` characters is an email part |
| Validators.EmailCharsAroundAt | src/pages/Profile.jsx:77 | with no whitespace and only one `@`, every other character is `[^\s@]` |
| Validators.CheckEmailSound | src/pages/Profile.jsx:77-78 | an address the check accepts matches `^[^\s@]+@[^\s@]+\.[^\s@]+$` |
| Validators.PatternPartsAreEmailChars | src/pages/Profile.jsx:77 | a matching address has no whitespace and no `@` but the separator |
| Validators.PatternSeparatorIsFirstAt | src/pages/Profile.jsx:77 | the separating `@` is the first `@` and the last |
| Validators.CheckEmailComplete | src/pages/Profile.jsx:77-78 | every matching address is accepted |
| Validators.CheckEmailMatchesPattern | src/pages/Profile.jsx:77-78 | the check accepts exactly the addresses matching the pattern |
| Signup.Set | src/pages/Signup.jsx:52-55 | setting a field changes that field only |
| Signup.Change | src/pages/Signup.jsx:36-60 | a filtered-out edit changes nothing; an accepted one sets only its field, and a password edit recomputes the flags |
| Signup.Submit | src/pages/Signup.jsx:66-103 | weak flags are refused with their message; success clears form and flags; any other answer keeps them |
| Signup.FlagsTrackPassword | src/pages/Signup.jsx:57-59 | the flags always describe the password in the form |
| Signup.NamesStayClean | src/pages/Signup.jsx:44-50 | the names, company and title only ever hold their allowed characters |
| ResetPassword.CheckLink | src/pages/ResetPassword.jsx:46-50 | only a link with both token and uid is verified |
| ResetPassword.Mount | src/pages/ResetPassword.jsx:28-51 | the token is valid exactly for a complete link answered "success"; otherwise an error is shown |
| ResetPassword.CheckSubmit | src/pages/ResetPassword.jsx:53-66 | the new password is sent exactly when both entries agree and it has 8 units; mismatch is reported first |
| ResetPassword.MismatchReportedBeforeLength | src/pages/ResetPassword.jsx:58-61 | for every pair, the mismatch error is given exactly when the entries differ, and the length error only for a matching pair shorter than 8 units |
| ResetPassword.SubmitIgnoresStrengthFlags | src/pages/ResetPassword.jsx:63-68 | a matching pair is sent exactly when the minimum-length flag is set, whatever the other strength flags say; "aaaaaaaa" fails three of them and is sent |
| ResetPassword.SubmitDisabled | src/pages/ResetPassword.jsx:235 | the button is enabled exactly when idle with a valid token |
| ResetPassword.BadLinkNeverEnablesSubmit | src/pages/ResetPassword.jsx:46-50 | a link missing a parameter never enables the button |
| Profile.LoadForm | src/pages/Profile.jsx:27-35 | each of the five profile fields takes the user's value, null becoming empty, and both password fields start empty |
| Profile.Change | src/pages/Profile.jsx:38-58 | a filtered-out edit changes nothing; an accepted one sets only its field |
| Profile.CheckSubmit | src/pages/Profile.jsx:60-92 | a password refusal is given exactly when the filled pair differs or is shorter than 8 units; an email refusal only for an address the check rejects; a sent form has an accepted email and non-blank names, sends them as typed, and sends a password only when it matches its confirmation and has 8 units |
| Profile.PasswordRulesFirst | src/pages/Profile.jsx:65-74 | the password pair is checked first when either is filled: mismatch, then length |
| Profile.EmailRuleSecond | src/pages/Profile.jsx:77-81 | the email pattern is refused next, exactly when the password rule passes |
| Profile.CheckedEmailNotBlank | src/pages/Profile.jsx:84 | an address passing the email check is never blank |
| Profile.RequiredRuleOnScan | src/pages/Profile.jsx:84-87 | the required-fields refusal comes only from a blank name |
| Profile.RequiredRuleLast | src/pages/Profile.jsx:84-87 | the same, stated on the pattern and blankness |
| Profile.SendsWithoutConfirmation | src/pages/Profile.jsx:89-92 | a form passing every rule is sent without the confirmation and with the password only when typed |
| Profile.EmailIsNeverBlank | src/pages/Profile.jsx:77-84 | a matching address is not blank, so the email half of the required check never fires |
| Profile.AfterUpdate | src/pages/Profile.jsx:97-105 | a successful update clears the two password fields and keeps the rest |
| Profile.UpdateClearsPasswordForNextSave | src/pages/Profile.jsx:100-105 | after an update a second save sends no password |
| Contact.Change | src/components/Contact.jsx:15-33 | a filtered-out edit changes nothing; an accepted one sets only its field |
| Contact.PhoneEditAcceptedIff | src/components/Contact.jsx:25-27 | a phone edit goes through exactly when it is at most 11 digits |
| Contact.PhoneStaysShortDigits | src/components/Contact.jsx:19-27 | the phone field only ever holds at most 11 digits |
| Contact.AfterSend | src/components/Contact.jsx:45-52 | a successful send empties every field; a failure keeps the form |
| AdminDashboard.FilterUsers | src/pages/AdminDashboard.jsx:122-127 | exactly the users passing both the name search and the status tab, each as often as it is listed, in order |
| AdminDashboard.EmptyQueryMatchesAll | src/pages/AdminDashboard.jsx:123 | the empty search matches every name |
| AdminDashboard.StatusTabsPartition | src/pages/AdminDashboard.jsx:124-125 | "active" and every other tab except "all" split the users; "all" keeps everyone |
| AdminDashboard.DeleteUser | src/pages/AdminDashboard.jsx:51-71 | a successful delete removes every user with that id and keeps every other user as often as it occurred, in order; otherwise nothing changes |
| AdminDashboard.FindUser | src/pages/AdminDashboard.jsx:77 | the first user with the id, or none exactly when there is none |
| AdminDashboard.MergeEdits | src/pages/AdminDashboard.jsx:81-89 | the saved row takes the edited fields, null optional fields becoming empty, and keeps its id and role |
| AdminDashboard.SaveInto | src/pages/AdminDashboard.jsx:102-105 | only rows with the target id change, and they take the edits |
| AdminDashboard.EditClickAsWritten | src/pages/AdminDashboard.jsx:73-116 | the first click selects; while editing, any row's click saves the working copy under that row's id |
| AdminDashboard.EditOtherRowOverwritesIt | src/pages/AdminDashboard.jsx:345-360 | clicking Edit on Bob while Ann is edited writes Ann's data onto Bob |
| AdminDashboard.EditClick | src/pages/AdminDashboard.jsx:73-116 | with the fix, a click on another row selects that row instead of saving; a click on the edited row saves it on success and ends editing, and a failed save changes nothing |
| AdminDashboard.SaveTouchesOnlyEditedUser | src/pages/AdminDashboard.jsx:102-105 | with the fix, a click changes only the edited user's rows; a click on the edited row writes the edits into every row with its id and ends editing; a click on another row changes no row and selects it |
| AdminDashboard.CancelEdit | src/pages/AdminDashboard.jsx:118-120 | cancel ends editing and keeps the list |
| AdminDashboard.CurrentUsers | src/pages/AdminDashboard.jsx:153-155 | the shown rows are at most a page of filtered users |
| Promotions.FilterPromotions | src/pages/ManagePromotions.jsx:127-129 | exactly the promotions whose name contains the query, ignoring ASCII case, each as often as it is listed, in order |
| Promotions.CurrentPromotions | src/pages/ManagePromotions.jsx:132-134 | the shown rows are at most a page of matching promotions |
| Promotions.FormFields | src/pages/ManagePromotions.jsx:70-75 | the body is the name, the image only when one was chosen, then the status |
| Promotions.SubmitRequest | src/pages/ManagePromotions.jsx:86-98 | edit mode sends a PUT to the selected promotion, add mode a POST; edit with none selected throws |
| Promotions.ImageSentOnlyWhenChosen | src/pages/ManagePromotions.jsx:71-75 | the image field is sent exactly when an image was chosen; the name comes first and the status last |
| Promotions.Submit | src/pages/ManagePromotions.jsx:100-107 | a successful save closes both modals and resets the form; a failure changes nothing |
| Promotions.OpenEdit | src/pages/ManagePromotions.jsx:221-229 | Edit selects the row and loads its name and status, with no image |
| Promotions.OpenAdd | src/pages/ManagePromotions.jsx:167-171 | Add opens a fresh form |
| Promotions.EditThenSavePutsSelected | src/pages/ManagePromotions.jsx:86-91 | editing a row and saving sends a PUT to that row's id, then resets |
| Promotions.ActiveOnly | src/pages/DisplayPromotions.jsx:19 | the carousel holds exactly the active promotions, each as often as it is listed, in order |
| Promotions.Advance | src/pages/DisplayPromotions.jsx:31-41 | a tick moves to the next slide, wrapping at the end; no tick runs for an empty list |
| Promotions.AdvanceNStaysInRange | src/pages/DisplayPromotions.jsx:35-37 | the index never leaves the list |
| Promotions.AdvanceNCompose | src/pages/DisplayPromotions.jsx:34-38 | a ticks then b ticks are a + b ticks |
| Promotions.AdvanceNCountsUp | src/pages/DisplayPromotions.jsx:36 | before the last slide, k ticks add k |
| Promotions.FullCycleReturns | src/pages/DisplayPromotions.jsx:34-38 | as many ticks as slides return to the start, so every slide is shown once per cycle |
| Promotions.Opacities | src/pages/DisplayPromotions.jsx:56-57 | only the current slide is opaque |
| Promotions.ExactlyOneSlideOpaque | src/pages/DisplayPromotions.jsx:53-58 | for a valid index exactly one slide is opaque |

## Left out

- Rendering, CSS classes, icons, animations and text beyond the messages the contracts name are not modelled.
- Network calls are not modelled. Each becomes a parameter holding the server's answer, reduced to what the page reads: success or failure, a status string, an optional message, and the fetched data.
- The browser's storage is not modelled. The access token becomes a `hasToken` flag. The "processedAlerts" list becomes a parameter that is missing, readable or unreadable. The stored heartbeat becomes an optional number.
- Navigation is recorded as a destination or a flag where a contract speaks of it (`ViewDestination`, `AgeGender.DeleteCamera`). Redirects to the login page after a 401 answer are not modelled.
- Clocks are not modelled. Every callback receives its time as `now`. The 5-second polling interval, the 2-second watchdog, the 1-second heartbeat and the one-minute sweep are events that the caller orders.
- React's batching of state updates and stale closures are not modelled. Each handler's effects are applied at once, in source order, to the latest state. The source's module-level flags `isAppJustLoaded`, `userStoppedSound` and `isSoundPlaying` are fields of the state.
- Requests that overlap in time are not modelled. A handler runs to completion, with its answer, before the next event.
- The audio element and the fallback chain are not modelled, so `tryAlternativeAudioMethod` does not appear. Playback is one `playing` flag, set when a play is attempted and not stopped by the user. Audio that fails to play is not modelled.
- AlertPresenter.Poll: the unreviewed count that `processNewAlert` receives is dropped, because the alert never reads it.
- AlertFilter.Throttled: the time is compared as an integer. JavaScript's floating-point `Date.now()` arithmetic is not modelled.
- AlertRuns.NoAlertShownTwice: it is stated only for runs without the eviction sweep. The sweep can forget an id, so the source itself does not keep the promise (see `AlertFilter.EvictionForgetsAcceptedId`).
- AlertRuns.Step: the unmount cleanup (`src/components/ShopliftingAlert.jsx:365-386`) is not an event, because after it nothing of the component remains.
- RecentActivity.Fetch: the `loading` flag is not modelled. A fetch without a token leaves it set in the source.
- RecentActivity: playing a clip, closing the video modal and its delayed clearing, and the temporary success and error banners are not modelled. They change nothing the contracts describe.
- RecentActivity.Sort: a timestamp is modelled as the instant it denotes. Unparseable dates, whose subtraction gives `NaN`, and the stability of the engine's sort are not modelled.
- PeopleCounter.Click: the point's pixel coordinates come from the canvas geometry and are given already scaled and rounded. The drawing on the canvas is not modelled.
- PeopleCounter: the first-frame request behind the Next button is reduced to opening the dialog (`Opened`). Deleting a camera and polling frames, which only reload the list or set an image, are not modelled.
- AgeGender: the connect request's other fields, the one-second wait after it and the list reload are not modelled. Only the `video_path` rule is modelled.
- AgeGender.LowerKeepsBlank: `toLowerCase` is modelled for ASCII letters only. Other scripts' case mapping is not modelled.
- AdminDashboard.FilterUsers: the name search lower-cases ASCII letters only, where the source's `toLowerCase` maps every script. A query "é" does not match the name "É" in the model, although it does in the program.
- Promotions.FilterPromotions: the same ASCII-only lower-casing applies to the promotion search.
- RecentActivity.DownloadHref: how the browser resolves and serialises the clip URL is a parameter (`resolved`), not modelled. The fallback that opens the raw clip in a new tab when building the link throws is not modelled.
- ShopliftingDetection: the camera list and the connect and delete handlers of that page are not modelled. Only the frame refresh and the stuck check are.
- UploadMap: the instructions toggle is not modelled. It only shows help text.
- Promotions: deleting a promotion and the list reload after a save are not modelled. Both only re-fetch the list.
- Validators.ValidatePassword: the regular expressions are modelled as character scans, which is what those single-class patterns mean.
- Validators.PhoneOk: `length` counts UTF-16 units; for the digits the filter admits this equals the character count (`PhoneLengthIsCharCount`).
- AdminDashboard: the role badge colours and the sidebar are not modelled. They are display only.
- Signup.Submit: the `loading` flag is not modelled, and the contract states only that a success message is shown, not its text.

## Findings

| source | as written | input that shows it | evidently intended | confidence | as-written member | corrected member |
|---|---|---|---|---|---|---|
| src/components/ShopliftingAlert.jsx:412-414 | the 5-second timer that ends the load window is armed on every mount. A detected reload adds a 10-second timer (lines 528-531) but does not cancel the first. | A reload detected at t0, because the heartbeat is 1 s old. An alert polled at t0 + 6000 is shown with sound. | a reload suppresses alerts for 10 seconds, as the comment at line 531 says | not executed | AlertRuns.ReloadWindowEndsAtFiveSecondsAsWritten | AlertRuns.ReloadSuppressesTenSeconds |
| src/pages/AdminDashboard.jsx:73-116 | while a user is being edited, `handleEditUser(id)` saves the working copy under the clicked row's id. The Edit button of every other row also calls it (line 360). | Ann (id 1) is being edited. Clicking Edit on Bob (id 2) gives a success answer, and Ann's name and email are written onto Bob. | a click on another row selects it; only the edited row's Save saves | not executed | AdminDashboard.EditOtherRowOverwritesIt | AdminDashboard.SaveTouchesOnlyEditedUser |
| src/pages/UploadMap.jsx:128-154 | `validateIframeCode` (lines 39-51) is never called. The Save button posts any non-blank code. | the code "map" | a code without `<iframe` and `</iframe>` shows "Please enter a valid iframe code" and is not posted | not executed | UploadMap.SaveAsWrittenPostsMalformedCode | UploadMap.SavePostsOnlyIframeCode |

In each row, the as-written lemma exhibits the input against a model of the code as written:

- `AlertPresenter.MountAsWritten`
- `AdminDashboard.EditClickAsWritten`
- `UploadMap.ClickSaveAsWritten`

The corrected lemma proves the intended property of the corrected definition:

- `AlertPresenter.Mount`
- `AdminDashboard.EditClick`
- `UploadMap.ClickSave`

`AlertRuns.NoAlertShownTwice` is stated from the corrected `Mount`, and `AlertRuns.NoAlertShownTwiceAsWritten` from `MountAsWritten`.
