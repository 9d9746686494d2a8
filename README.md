# wemakedo — a verified model of the gathering service

wemakedo is a meetup service for office workers. A host creates a *gathering*
(title, place, time, capacity, category). Others apply to join, and the host
approves or rejects them. Participants comment, like, chat and review each
other's manners afterwards, and get notifications.

The server side is a set of actions over a hosted relational store. The
client side is a set of small React state machines. This project models both
in Dafny:

- **The store** (`database.dfy`) is one `Database` object. It has one `seq`
  field per table, plus the `user_metadata` of the auth users. `Valid()`
  holds the store's own guarantees: primary keys, the unique (user,
  gathering) and (reviewer, reviewee, gathering) constraints, and serial
  counters ahead of every id handed out. An insert that would duplicate a
  unique key fails with SQLSTATE `23505`, as the store reports it.
- **The caller** is an `Option<UserId>`. A store error is a
  `StoreError(code, message)` passed in as a parameter, so every error branch
  of the source is reachable.
- **An action ends** with an `Outcome`: `Returned`, `Thrown` (an `Error` with
  its message), or `Redirected` (the framework's `redirect`). Actions that
  answer with plain objects return a `Reply`: `Success` or
  `ErrorReply(message)`.
- **Client components** are classes whose fields are the component's state.
  An `async` handler is split at its `await`: a `Start…` method runs up to
  the server call, and a `Settle…` method runs once the call has returned or
  thrown.
- **JavaScript values** are modelled explicitly. A nullable string is a
  `Field` (`Undefined | Null | Text`) with its JavaScript truthiness and `||`.
  A nullable number is an `Option<real>`, which is truthy unless it is absent
  or `0`.

| file | models |
|---|---|
| common.dfy, seqs.dfy, decimal.dfy | shared vocabulary; filtering, sorting and uniqueness over sequences; decimal rendering |
| database.dfy | the tables, their keys and the store's insert semantics |
| gatherings.dfy | `app/gatherings/actions.ts` |
| reviews.dfy | `app/reviews/actions.ts` |
| community.dfy | `app/gatherings/community-actions.ts` |
| notifications.dfy | `app/notifications/actions.ts` |
| lightning.dfy | `app/gatherings/lightning-actions.ts` |
| categories.dfy | `lib/constants.ts` |
| notificationbell.dfy | `components/notifications/notification-bell.tsx` |
| chat.dfy | `components/chat/chat-message-list.tsx` |
| likebutton.dfy | `components/like-button.tsx` |
| applicationlist.dfy | `components/application-list.tsx` |
| mannerreview.dfy | `components/manner-review-modal.tsx` |
| searchfilters.dfy | `components/search-filters.tsx` |
| profileedit.dfy | `app/mypage/edit/actions.ts` |
| authcallback.dfy | `app/auth/callback/route.ts` |

Five facts about the code shape the model:

- **Host participation is best effort.** Creating a gathering inserts the
  host's participation as a second insert, and a failure of that insert is
  only logged (`app/gatherings/actions.ts:55-68`). `Gatherings.CreateGathering`
  states both outcomes.
- **One join policy.** The host joins directly, and anyone else files an
  application. Only the `joined` participation status is ever written. The
  `pending` and `rejected` values of `types/database.types.ts:87`, and
  `closed` and `canceled` of `types/database.types.ts:52`, appear only in
  the enums.
- **Applications and participations can coexist.** Nothing in the code keeps
  a user from holding both for the same gathering. A participant who applies
  again gets an application next to their participation. Approval inserts a
  participation whether or not an application exists.
- **No host check on approve or reject.** `approveApplication` and
  `rejectApplication` check neither who calls them nor whether that caller
  is the host. The model takes no caller for them.
- **No cascade.** Deleting a gathering leaves its dependent rows in the
  model. The code relies on the store to cascade, and the store is not
  modelled here.

## Model

| member | source | states |
|---|---|---|
| Database.InsertError | app/gatherings/actions.ts:111-116 | an insert succeeds exactly when there is no fault and the key is free; a taken key is reported as unique violation `23505` |
| Database.FindGathering | app/gatherings/actions.ts:88-94 | the lookup finds a row exactly when a gathering has that id, and what it finds is that gathering |
| Gatherings.GatheringDraft | app/gatherings/actions.ts:32-45 | the row to insert has the caller as host, status `recruiting`, and the form's title, time, capacity and category |
| Gatherings.GatheringPathInjective | app/gatherings/actions.ts:72 | different gatherings redirect to different `/gatherings/<id>` pages |
| Gatherings.CreateGathering | app/gatherings/actions.ts:20-73 | no caller, or a failed first insert, throws and the tables stay as they were; on success exactly one gathering is appended, hosted by the caller, and the caller's `joined` participation is added unless that second insert fails, which does not undo the gathering; the call redirects to the new gathering's page |
| Gatherings.JoinGathering | app/gatherings/actions.ts:77-120 | no caller redirects to `/login`; a missing gathering, or a failed lookup of an existing one, throws "Gathering not found"; the host gets one participation and no application, or "Failed to join as host"; anyone else gets one application and no participation, or "Already applied" on `23505` and "Failed to apply" otherwise; a failure changes no table |
| Gatherings.WithoutApplication | app/gatherings/actions.ts:128-132 | the delete removes exactly the (user, gathering) application and keeps every other row |
| Gatherings.WithoutApplicationKeepsOthers | app/gatherings/actions.ts:128-132 | deleting an application that does not exist leaves the table as it is |
| Gatherings.CancelApplication | app/gatherings/actions.ts:123-135 | no caller throws; otherwise only the caller's application for that gathering is removed (nothing when there is none), the participations are untouched, and the delete's own error is not reported |
| Gatherings.ApproveApplication | app/gatherings/actions.ts:138-156 | with no identity check at all: a failed participation insert throws "Failed to approve" and keeps the application; otherwise exactly one `joined` participation is added and the matching application is deleted, unless that delete fails, which is not reported |
| Gatherings.RejectApplication | app/gatherings/actions.ts:159-167 | with no identity check: only the matching application is deleted, the participations are untouched, and the call always returns |
| Gatherings.DeleteGathering | app/gatherings/actions.ts:261-298 | no caller, a missing gathering or a failed lookup, or a caller who is not the host each throw their own message and delete nothing; for the host exactly that gathering is removed, or "Failed to delete gathering" with nothing removed |
| Gatherings.GetApplications | app/gatherings/actions.ts:170-183 | exactly the gathering's applications, oldest first; empty on a query error |
| Gatherings.GetGatherings | app/gatherings/actions.ts:192-230 | empty on error; otherwise exactly the gatherings meeting every filter given (category unless empty or `all`; a case-insensitive substring of title or content; `meet_at` strictly after now for `open`), each as often as stored, newest-created first |
| Gatherings.NoFiltersListsAll | app/gatherings/actions.ts:204 | no filters, or category `all` alone, keep every gathering |
| Reviews.InsertReview | app/reviews/actions.ts:20-27 | the row is stored exactly when the store accepts it, and one review per (reviewer, reviewee, gathering) is kept |
| Reviews.SubmitReview | app/reviews/actions.ts:7-39 | no caller throws "User not authenticated"; reviewing oneself throws "Cannot review yourself"; a taken triple throws "Already reviewed this user for this gathering"; any other error throws with its message and code; success appends exactly the caller's ±1 row and returns `{success: true}`; nothing is written unless the call succeeds |
| Reviews.SecondReviewIsDuplicate | app/reviews/actions.ts:29-32 | an insert whose (reviewer, reviewee, gathering) triple is already stored, whatever its score, is refused as a unique violation |
| Reviews.ChangedScoreIsDuplicate | app/reviews/actions.ts:29-32 | reviewing the same person for the same gathering again, with any score including the other one, is refused too |
| Reviews.GivenReviews | app/reviews/actions.ts:48-52 | the (reviewee, score) pairs are exactly those of the caller's rows for that gathering |
| Reviews.GetMyReviews | app/reviews/actions.ts:42-55 | empty without a caller or on a query error; otherwise exactly `GivenReviews` of the table: every pair of the caller's reviews in the gathering, and only those; in every case no reviewee appears twice |
| Reviews.GivenReviewsDistinct | app/reviews/actions.ts:48-52 | with the table's unique key, no reviewee appears twice in the pairs |
| Community.AddComment | app/gatherings/community-actions.ts:7-29 | no caller, or a failed insert, throws its message and adds nothing; otherwise exactly one comment by the caller is appended |
| Community.WithoutComment | app/gatherings/community-actions.ts:42-46 | the delete removes exactly the row with that id written by the caller |
| Community.WithoutCommentKeepsOthers | app/gatherings/community-actions.ts:42-46 | other users' comments are untouched, in order |
| Community.DeleteOthersCommentIsNoOp | app/gatherings/community-actions.ts:42-53 | deleting someone else's comment, or a missing one, changes nothing and is no error |
| Community.DeleteComment | app/gatherings/community-actions.ts:32-54 | no caller or a store error throws and nothing changes; otherwise the table loses exactly the caller's comment with that id |
| Community.ExistingLike | app/gatherings/community-actions.ts:68-73 | `.single()` finds a like exactly when the caller has one like of the gathering |
| Community.ToggleRemovesTheLike | app/gatherings/community-actions.ts:75-77 | with one like by the caller, the toggle removes it and keeps every other like in order |
| Community.ToggleAddsALike | app/gatherings/community-actions.ts:78-84 | with no like by the caller, the toggle appends exactly one like of the caller |
| Community.ToggleTwiceFromNone | app/gatherings/community-actions.ts:68-84 | toggling twice from no like restores the likes table exactly |
| Community.ToggleTwiceFromOne | app/gatherings/community-actions.ts:68-84 | toggling twice from one like restores every other like in order and leaves the caller one like, carrying the id the first toggle would have drawn, since a removal draws none |
| Community.ToggleLike | app/gatherings/community-actions.ts:57-89 | no caller throws and changes nothing; otherwise the table becomes the toggled table; a failed lookup appends a new like; a failed write changes nothing; the call returns either way |
| Notifications.Unread | app/notifications/actions.ts:16-17 | exactly the caller's unread rows |
| Notifications.UnreadPageIsTopTwenty | app/notifications/actions.ts:13-19 | the page holds at most 20 rows, all the caller's unread ones, newest first; a row is left out only when the page is full, and then it is no newer than any row on the page |
| Notifications.GetUnreadNotifications | app/notifications/actions.ts:7-27 | empty without a caller or on error; otherwise the page of the caller's unread notifications |
| Notifications.MarkedRead | app/notifications/actions.ts:36-40 | only `is_read` can change, it is set on the caller's row with that id, and every other row is unchanged |
| Notifications.MarkedAllRead | app/notifications/actions.ts:57-61 | only `is_read` can change, and other users' rows are unchanged |
| Notifications.NoUnreadAfterMarkAll | app/notifications/actions.ts:57-61 | afterwards the caller has no unread notification |
| Notifications.UnreadAfterMarkAsRead | app/notifications/actions.ts:36-40 | marking one read takes exactly that id off the caller's unread list |
| Notifications.MarkAsReadIdempotent | app/notifications/actions.ts:36-40 | marking twice is marking once |
| Notifications.MarkAllReadIdempotent | app/notifications/actions.ts:57-61 | marking all twice is marking all once |
| Notifications.MarkAsRead | app/notifications/actions.ts:30-48 | no caller answers "Not authenticated", a store error "Failed to mark as read", neither changing anything; otherwise the table is marked and `{success: true}` returned |
| Notifications.MarkAllAsRead | app/notifications/actions.ts:51-69 | as above, with "Failed to mark all as read" |
| Lightning.ParticipantCount | app/gatherings/lightning-actions.ts:56 | the embedded count when present, else 0 |
| Lightning.DistanceTo | app/gatherings/lightning-actions.ts:47-53 | a distance exists exactly when all four coordinates are truthy numbers, and it is the distance function's value |
| Lightning.Annotate | app/gatherings/lightning-actions.ts:46-59 | one annotated row per gathering, in order, each with its count and distance |
| Lightning.AnnotateKeepsGatherings | app/gatherings/lightning-actions.ts:46-59 | annotating keeps exactly the gatherings, with the number of their participation rows as count |
| Lightning.SortByDistance | app/gatherings/lightning-actions.ts:64 | the array is sorted in place by `distance \|\| 0` and keeps the same rows |
| Lightning.LightningRows | app/gatherings/lightning-actions.ts:26-38 | every recruiting gathering meeting between now and 90 minutes later, once each, and no other |
| Lightning.LightningRowsByTime | app/gatherings/lightning-actions.ts:38 | the rows are in ascending meeting time |
| Lightning.LightningRowsAnnotated | app/gatherings/lightning-actions.ts:46-59 | every row carries its distance and participant count |
| Lightning.GetLightningGatherings | app/gatherings/lightning-actions.ts:22-68 | empty on error; without caller coordinates the rows as queried, in meeting-time order with nothing dropped; with them, exactly the rows at most 1000 m away, sorted by ascending distance |
| Lightning.NearListIsExact | app/gatherings/lightning-actions.ts:62-63 | a gathering of the window is kept exactly when its distance exists and is at most 1000 |
| Lightning.LunchGatherings | app/gatherings/lightning-actions.ts:71-102 | empty on error; otherwise every recruiting `lunch` gathering meeting within the day's bounds, once each, with its participant count |
| Lightning.LunchGatheringsByTime | app/gatherings/lightning-actions.ts:91 | the lunch list is in ascending meeting time and carries no distance |
| Categories.Find | lib/constants.ts:16 | the first entry with that id, or nothing exactly when no entry has it |
| Categories.CategoryIdsDistinct | lib/constants.ts:1-12 | the ten ids are pairwise distinct and non-empty |
| Categories.CategoryTags | lib/constants.ts:1-12 | a proof helper for `CategoryIdsDistinct`, modelling no code of its own: every id's first two characters are among ten known values |
| Categories.GetCategoryLabel | lib/constants.ts:14-18 | `getCategoryLabel`; its contract is carried by `MissingIdShowsNothing`, `KnownIdShowsIconAndLabel` and `UnknownIdShowsItself` |
| Categories.MissingIdShowsNothing | lib/constants.ts:15 | a null, undefined or empty id shows as the empty string |
| Categories.FindsOwnEntry | lib/constants.ts:16 | in a table with distinct ids, an entry's id finds that entry |
| Categories.KnownIdShowsIconAndLabel | lib/constants.ts:16-17 | a known id shows as its entry's icon, a space, and its label |
| Categories.UnknownIdShowsItself | lib/constants.ts:17 | any other id shows as itself |
| NotificationBell.BadgeText | components/notifications/notification-bell.tsx:114-116 | the badge over the bell; its contract is carried by `BadgeHiddenIffZero`, `BadgeShowsCount`, `BadgeSaturates` and `BadgeInjectiveBelowHundred` |
| NotificationBell.BadgeHiddenIffZero | components/notifications/notification-bell.tsx:114 | the badge is hidden exactly at a zero count |
| NotificationBell.BadgeShowsCount | components/notifications/notification-bell.tsx:116 | from 1 to 99 the badge reads back as the count, in at most two digits |
| NotificationBell.BadgeSaturates | components/notifications/notification-bell.tsx:116 | every count above 99 shows `99+` |
| NotificationBell.BadgeInjectiveBelowHundred | components/notifications/notification-bell.tsx:116 | counts up to 99 are told apart |
| NotificationBell.WithoutId | components/notifications/notification-bell.tsx:87 | exactly the entries with another id remain |
| NotificationBell.FollowLink | components/notifications/notification-bell.tsx:92-94 | a link is followed exactly when it is a non-empty string |
| NotificationBell.NotificationBell.FetchInitial | components/notifications/notification-bell.tsx:28-38 | with a user and non-empty data, the list becomes the data and the counter its length; otherwise nothing changes |
| NotificationBell.NotificationBell.OnInsert | components/notifications/notification-bell.tsx:53-57 | the new notification goes first and the counter rises by exactly one |
| NotificationBell.NotificationBell.Toggle | components/notifications/notification-bell.tsx:109 | the bell button flips the dropdown |
| NotificationBell.NotificationBell.HandleNotificationClick | components/notifications/notification-bell.tsx:84-95 | an unread notification leaves the list, the others stay in order, and the counter drops by one but not below 0; a read one changes neither; the dropdown closes either way; the link is followed when present |
| NotificationBell.NotificationBell.HandleMarkAllRead | components/notifications/notification-bell.tsx:97-102 | the list empties, the counter is 0 and the dropdown closes |
| NotificationBell.InsertThenClick | components/notifications/notification-bell.tsx:53-89 | a realtime insert followed by a click on it restores the list and the counter |
| Chat.FirstBy | components/chat/chat-message-list.tsx:84 | the first earlier message by that sender, or nothing exactly when there is none |
| Chat.ResolveSender | components/chat/chat-message-list.tsx:78-96 | the sender is the current user for their own messages, else the user of the first earlier message by that sender when it has one, else the fetched profile, possibly none |
| Chat.Appended | components/chat/chat-message-list.tsx:99-102 | a listed id leaves the list as it is; otherwise the message with its sender goes at the end |
| Chat.AppendedKeepsIdsUnique | components/chat/chat-message-list.tsx:99-102 | the append never lists an id twice |
| Chat.RedeliveryIsIgnored | components/chat/chat-message-list.tsx:100 | delivering the same message twice lists it once |
| Chat.FirstIsNeverContinuous | components/chat/chat-message-list.tsx:120 | the first message never continues a run |
| Chat.AppendKeepsContinuity | components/chat/chat-message-list.tsx:120 | appending leaves every earlier message's continuity as it was; the new one continues exactly when the previous sender sends again |
| Chat.ChatMessageList.OnInsert | components/chat/chat-message-list.tsx:66-103 | a listed id changes nothing; otherwise the earlier messages are unchanged and the incoming one is appended with its sender resolved in the order above; unique ids stay unique |
| LikeButton.Flipped | components/like-button.tsx:29-30 | the liked flag flips, and the count goes up when liking and down when unliking |
| LikeButton.FlipTwiceRestores | components/like-button.tsx:29-30 | two flips cancel out |
| LikeButton.LikeButton.StartToggle | components/like-button.tsx:19-31 | logged out, nothing changes and no call is made; otherwise the previous values are saved, the state is flipped, and the button becomes pending |
| LikeButton.LikeButton.SettleToggle | components/like-button.tsx:33-43 | a failure restores the saved values, a success keeps the flip, and the button is no longer pending (nor disabled) either way |
| LikeButton.ClickAndFail | components/like-button.tsx:19-49 | a click whose call fails leaves the button as it was |
| LikeButton.ClickAndSucceed | components/like-button.tsx:19-43 | a click whose call succeeds leaves the flipped state |
| ApplicationList.IsNewbie | components/application-list.tsx:79 | the newbie badge's condition; its contract is carried by `NewbieCases` |
| ApplicationList.NewbieCases | components/application-list.tsx:79 | no aggregate is a newbie; an empty aggregate is not; otherwise newbie exactly when the first count is 0 |
| ApplicationList.WithoutUser | components/application-list.tsx:33 | exactly the applications of other users remain |
| ApplicationList.WithoutUserSplits | components/application-list.tsx:33 | the removal works piecewise, so the others keep their order |
| ApplicationList.WithoutUserIdempotent | components/application-list.tsx:33 | removing the same applicant twice is removing them once |
| ApplicationList.ApplicationList.StartDecision | components/application-list.tsx:28-44 | a declined confirmation makes no call and changes nothing; otherwise that applicant is marked in flight |
| ApplicationList.ApplicationList.SettleDecision | components/application-list.tsx:31-53 | success removes every application of that user, keeping the others in order; failure keeps the list; nothing is in flight afterwards |
| MannerReview.OtherParticipants | components/manner-review-modal.tsx:37-39 | exactly the non-null users other than the current one |
| MannerReview.OtherParticipantsSplit | components/manner-review-modal.tsx:37-39 | the filter works row by row, so the original order is kept |
| MannerReview.NeverRatesSelf | components/manner-review-modal.tsx:37-39 | the current user is never among those to rate |
| MannerReview.MannerReviewModal.constructor | components/manner-review-modal.tsx:33-39 | nothing is in flight and the completed set starts as the initial ids |
| MannerReview.MannerReviewModal.Controls | components/manner-review-modal.tsx:75-126 | a completed participant shows the marker instead of the vote buttons, which are disabled exactly while that participant's review is in flight |
| MannerReview.MannerReviewModal.StartReview | components/manner-review-modal.tsx:43 | the reviewee is added to the in-flight set |
| MannerReview.MannerReviewModal.SettleReview | components/manner-review-modal.tsx:46-56 | success adds the reviewee to the completed set, failure leaves it; the completed set never shrinks; the reviewee leaves the in-flight set either way |
| MannerReview.Vote | components/manner-review-modal.tsx:41-58 | after a vote the reviewee is not in flight, and a successful vote shows the marker |
| SearchFilters.Get | components/search-filters.tsx:24-26 | the first value of that name, or null exactly when no pair has it |
| SearchFilters.GetAfterSet | components/search-filters.tsx:39-47 | after a set the name reads as the new value and every other name as before |
| SearchFilters.SetAddsOnlyItsPair | components/search-filters.tsx:39-47 | a set adds no pair other than its own |
| SearchFilters.InitialState | components/search-filters.tsx:24-26 | the category is the URL's unless absent or empty, then `all`; the query is the URL's unless absent, then empty; open-only exactly when `status` is `open` |
| SearchFilters.RoundTrip | components/search-filters.tsx:24-47 | for any non-empty category, reading back the parameters the bar writes restores its state |
| SearchFilters.EmptyCategoryReadsAsAll | components/search-filters.tsx:24-41 | an empty category is not written and reads back as `all` |
| SearchFilters.InitialCategoryNonEmpty | components/search-filters.tsx:24 | the bar never starts with an empty category |
| SearchFilters.SearchFilters.constructor | components/search-filters.tsx:23-30 | the bar's state starts as the state the URL reads as |
| SearchFilters.SearchFilters.SetCategory | components/search-filters.tsx:56-68 | choosing any value the select offers makes it the category, and no offered value is empty |
| SearchFilters.OptionsNonEmpty | components/search-filters.tsx:61-68 | none of the select's values is empty, so a chosen category never falls back to `all` |
| SearchFilters.SearchFilters.SetQuery | components/search-filters.tsx:80 | typing makes the input's value the query |
| SearchFilters.SearchFilters.ToggleOpenOnly | components/search-filters.tsx:87 | the button flips open-only |
| SearchFilters.SearchFilters.BuildParams | components/search-filters.tsx:36-50 | the category is written exactly when it is non-empty and not `all`, the query exactly when the debounced query is non-empty, and `status=open` exactly when open-only is on; no other name is written |
| SearchFilters.OptionsAreNotCategoryIds | components/search-filters.tsx:61-68 | no offered category value other than `all` equals an id of the catalogue in lib/constants.ts:1-12 |
| SearchFilters.OfferedCategoryListsNoCataloguedGathering | components/search-filters.tsx:61-68 | as written, choosing an offered category other than `all` makes the filter of app/gatherings/actions.ts:204-206 reject every gathering filed under a catalogue id, the values the creation form stores (components/create-gathering-form.tsx:89-92) |
| SearchFilters.CorrectedOptionSelectsItsCategory | app/gatherings/actions.ts:204-206 | with `all` and the ids of lib/constants.ts:1-12 as choices, every catalogue category can be chosen, and the filter then selects exactly the gatherings filed under it |
| SearchFilters.CorrectedOptionsNonEmpty | components/search-filters.tsx:24 | no corrected choice is empty, so each survives the round trip |
| ProfileEdit.UpdatedProfiles | app/mypage/edit/actions.ts:34-42 | the caller's row takes the four form values and keeps its id and email; every other row is unchanged |
| ProfileEdit.UpdateIdempotent | app/mypage/edit/actions.ts:34-42 | saving the same form twice is saving it once |
| ProfileEdit.UpdateKeepsKeysUnique | app/mypage/edit/actions.ts:34-42 | the update changes no id, so each user still has at most one row |
| ProfileEdit.MergedMetadata | app/mypage/edit/actions.ts:50-57 | the four keys take the form's values and every other key is kept |
| ProfileEdit.UpdateProfile | app/mypage/edit/actions.ts:14-66 | no caller throws; a missing or empty name answers "이름을 입력해주세요." and writes nothing; a failed row update answers "프로필 업데이트에 실패했습니다." and does not touch the metadata; otherwise the row is updated; the metadata is merged unless that update fails, which does not stop the redirect to `/mypage` |
| AuthCallback.MetaField | app/auth/callback/route.ts:29-30 | an absent key reads as undefined, a stored value as its string |
| AuthCallback.LocalPart | app/auth/callback/route.ts:29 | the part of the address before its first `@`, or all of it |
| AuthCallback.LocalPartOfPlainName | app/auth/callback/route.ts:29 | an address without `@` is its own local part |
| AuthCallback.NameFallback | app/auth/callback/route.ts:29 | the name is `full_name`, else `name`, else the email prefix |
| AuthCallback.NameFromEmail | app/auth/callback/route.ts:29 | falling back to the email gives a prefix of it without `@` |
| AuthCallback.AvatarFallback | app/auth/callback/route.ts:30 | the avatar is `avatar_url`, else `picture` |
| AuthCallback.Upserted | app/auth/callback/route.ts:24-31 | an existing row of the user takes the values sent and keeps the fields left undefined; otherwise one row is appended |
| AuthCallback.UpsertKeepsOneRowPerUser | app/auth/callback/route.ts:24-31 | afterwards the user has exactly one row and every other user's row is as it was |
| AuthCallback.NextPath | app/auth/callback/route.ts:8 | `next` defaults to `/` only when absent |
| AuthCallback.SuccessTarget | app/auth/callback/route.ts:38-48 | in development the origin plus `next`, whatever the forwarded host; otherwise `https://` + the forwarded host + `next` when one is given, else the origin plus `next` |
| AuthCallback.SuccessTargetEndsWithNext | app/auth/callback/route.ts:41-48 | every success target ends with the `next` path |
| AuthCallback.Callback | app/auth/callback/route.ts:4-54 | a missing or empty code, or a failed exchange, redirects to the origin plus `/auth/auth-code-error` and writes nothing; otherwise the profile is upserted when there is a user, an upsert failure is ignored, and the success target is chosen |

## Left out

- The hosted store's client, its query builder, realtime channels, `revalidatePath`, `router.push`, `alert` and `confirm` are foreign calls and I/O. Their results are parameters (`fault`, `failed`, `succeeded`, `confirmed`, `fetched`). Their effects are store updates, `Outcome`s or returned values.
- Cascade deletes, foreign keys and the trigger that updates manner scores are store behaviour the code relies on. They are not modelled.
- Capacity is never checked on the server, so the model proves no capacity bound. Concurrent joins and approvals are out of scope.
- `geolib.getDistance` and all floating-point maths: the distance is an arbitrary function to whole metres.
- Clock reads and time zones: `now` is a parameter in milliseconds. So are the day bounds of the lunch list, as local midnight and 23:59:59.999 would give them.
- `getGathering`, `getGatherings`' embedded host and count, and `getApplications`' embedded user are not modelled beyond their filters and order. They are passthroughs to the store.
- Gatherings.GetGatherings: treats the search text as plain text. In the source, `%` and `_` are `ILIKE` wildcards, and commas or parentheses change the `or` filter. Case folding covers ASCII letters only. When `created_at` ties, the store's order is not modelled.
- Lightning.SortByDistance: proves the result sorted and a permutation, but not the stability of `Array.prototype.sort`.
- Lightning.GetLightningGatherings: the query's ISO-8601 timestamp comparison is modelled as integer comparison of milliseconds. Among rows with the same `meet_at`, the result keeps table order, which `ORDER BY meet_at` does not promise.
- Lightning.LunchGatherings: among rows with the same `meet_at`, the result keeps table order, which `ORDER BY meet_at` does not promise.
- Notifications.GetUnreadNotifications: among rows with the same `created_at`, the page keeps table order, and so fixes which tied rows make the 20-row cut. `ORDER BY created_at DESC LIMIT 20` promises neither.
- Community.ToggleLike: the errors of the delete and the insert are not inspected in the source. They are one `writeFails` flag. A failed lookup behaves as "no like found".
- NotificationBell.NotificationBell.FetchInitial: the model takes the user as present or absent. The source also treats an empty-string user id as absent.
- The bell's subscription lifetime, the click-outside listener and all rendering other than the badge are left out.
- Chat.ChatMessageList.OnInsert: the handler's closure captures `messages` from the render that subscribed it. The effect re-subscribes on every change, so the model uses the current list. The profile lookup is the `fetched` parameter. Scrolling and time formatting are left out.
- SearchFilters.SearchFilters.BuildParams: returns the name/value pairs, not the URL text. Percent-encoding by `URLSearchParams.toString()` is left out. The 500 ms debounce is a parameter: the query as it last settled.
- The manner review dialog's open state, the `onReviewSubmitted` callback and the score sent are left out. The server side of a vote is `Reviews.SubmitReview`.
- ProfileEdit.UpdateProfile: a `File` value from `FormData.get` is not modelled. The auth metadata update is a `metadataFails` flag.
- AuthCallback.Callback: the code exchange and `getUser` are parameters. So are `NODE_ENV` and the request's origin and forwarded host. Metadata values that are not strings are not modelled.

## Findings

| source | as written | input that shows it | evidently intended | confidence | as-written member | corrected member |
|---|---|---|---|---|---|---|
| components/search-filters.tsx:61-68 | The category select offers display names such as `운동/액티비티`. `getGatherings` compares them with the stored `category`. The creation form stores catalogue ids such as `workout` (components/create-gathering-form.tsx:89-92). | A gathering created with category `workout`, and the category `운동/액티비티` chosen in the bar: `getGatherings` excludes the gathering. | The select offers `all` and the catalogue's ids, so that choosing a category lists that category's gatherings. | medium, not executed; no page in these files passes the bar's parameters on to `getGatherings` | SearchFilters.OfferedCategoryListsNoCataloguedGathering | SearchFilters.CorrectedOptionSelectsItsCategory |
