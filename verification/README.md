# Route feeds and screen logic of a travel-route app, in Dafny

This project models the logic of a React travel app: its route feeds, lists and small
screen state machines. It proves properties of each part. Every screen's state is an
immutable datatype. Every handler is a pure function from one state to the next. The
values the app takes from `Date.now()`, `Math.random()`, the DOM and the router are
parameters.

- **Explore feed** (`ExploreFeed`, explore.dfy):
  - A category filter where 发现 means "all".
  - A stable, descending sort by timestamp, rating or `parseFloat` distance.
  - A paginating loader that appends three generated routes per call until 21 routes are loaded.
  - The scroll trigger that calls the loader within 150 px of the end.
- **Community feed** (`Community`, community.dfy):
  - Mock posts built from a template whose `extra` argument overrides the defaults.
  - A reset to the four seeded posts on every tab change.
  - A loader that appends two posts after a delay. It is split into its two halves, so other events can fall between them.
  - The aspect-ratio class of a card.
- **Lists:**
  - The notification tabs and "mark all read" (`Notifications`).
  - The follow lists and follow buttons (`Follows`).
  - The direct-message search (`Messages`).
  - A chat's message appends and panels (`Chat`).
  - The route detail page's toggles and unit stripping (`Detail`).
  - The notification preferences (`NotificationSettings`).
- **Status machines:**
  - The journey editor, with its timeline slider and time badge (`JourneyEditor`).
  - The tracking screen (`Track`).
- **Components:**
  - The bottom bar's active-tab test (`Navbar`).
  - The route card's subtitle and badge (`RouteCard`).
- **Shared modules:**
  - `Types`: the `TravelRoute` and `ChatMessage` records.
  - `Text`: the JavaScript string operations used: decimal rendering, `includes`, `indexOf`, `replace`, `trim` and ASCII `toLowerCase`.
  - `Decimal`: `parseFloat`'s longest-decimal-prefix rule from section 19.2.4 of ECMA-262, and `toFixed(1)` output.
  - `Seqs`: `Array.prototype.filter`, with multiplicity, membership and subsequence lemmas.
  - `StableSort`: an insertion sort. It is proved to be a permutation, descending, and stable in the sense of section 23.1.3.30 of ECMA-262 (2023): for every key, the items with that key keep their relative order.

Ratings, timestamps, distances and screen geometry are `real`. A value the source rounds
with `toFixed(1)` is passed as a whole number of tenths.

## Model

| member | source | states |
|---|---|---|
| ExploreFeed.SortMenuMatchesLabel | views/ExploreView.tsx:218-222 | The sort button shows the label of the selected menu entry. The menu offers each criterion once, and no two criteria share a label. |
| ExploreFeed.FilterByTag | views/ExploreView.tsx:156-159 | The tag 发现 passes the list unchanged. Any other tag keeps exactly the routes whose category equals it, each as often as it occurs, as a subsequence of the loaded list. |
| ExploreFeed.Derive | views/ExploreView.tsx:155-167 | The displayed list is a permutation of the filtered list. It is descending by the chosen key, and routes with equal keys keep their filtered order. |
| ExploreFeed.DeriveOrder | views/ExploreView.tsx:161-163 | Latest gives non-increasing timestamps, rating gives non-increasing ratings, and distance gives non-increasing parsed distances. |
| ExploreFeed.DeriveMembership | views/ExploreView.tsx:155-167 | A route is displayed if and only if it is loaded and passes the tag. |
| ExploreFeed.SeedByLatest | views/ExploreView.tsx:6-55 | The seeded routes sorted by recency stay in the order 1, 2, 3. |
| ExploreFeed.SeedByRating | views/ExploreView.tsx:6-55 | The seeded routes sorted by rating read 3, 1, 2. |
| ExploreFeed.SeedDistanceKeys | views/ExploreView.tsx:163 | `parseFloat` reads "4.5km" as 4.5, "8.2km" as 8.2 and "15.0km" as 15. |
| ExploreFeed.DistanceOfTenths | views/ExploreView.tsx:163 | Any one-decimal distance followed by "km" sorts by its numeric value. |
| ExploreFeed.SeedByDistance | views/ExploreView.tsx:6-55 | The seeded routes sorted by distance read 3, 2, 1, longest first. |
| ExploreFeed.SeedCityWalk | views/ExploreView.tsx:157-159 | The City Walk tag on the seed shows route 2 alone, whatever the sort. |
| ExploreFeed.PickCategory | views/ExploreView.tsx:193 | A draw in [0, 1) always picks an entry of `CATEGORIES`. |
| ExploreFeed.NewRoute | views/ExploreView.tsx:176-195 | A generated route's id is count+i+1 in decimal, and its category is one of the tags. |
| ExploreFeed.NewRouteDistanceKey | views/ExploreView.tsx:185 | A generated route's distance sorts by the rounded value it displays. |
| ExploreFeed.Batch | views/ExploreView.tsx:175-194 | A batch is three routes numbered count+1, count+2 and count+3, each tagged with a category from the tag list. |
| ExploreFeed.LoadMore | views/ExploreView.tsx:169-203 | The loader does nothing while loading or once exhausted. Otherwise it keeps every earlier route, appends three routes numbered after them with categories from the tags, and clears `isLoading`. `hasMore` stays true exactly while the new length is below 20, and the loader never sets it back to true. |
| ExploreFeed.HandleScroll | views/ExploreView.tsx:205-211 | The loader runs exactly when the container is mounted and less than 150 remains below the visible part. Otherwise nothing changes. |
| ExploreFeed.InitialInvariant | views/ExploreView.tsx:130-132 | The seeded feed satisfies the invariant: positional ids, categories from the tags, length a multiple of 3 between 3 and 21, and `hasMore` exactly while the length is below 21. |
| ExploreFeed.LoadMorePreserves | views/ExploreView.tsx:175-202 | Every whole load preserves that invariant. |
| ExploreFeed.AppendPreserves | views/ExploreView.tsx:196-201 | Any state that keeps the earlier routes and appends three positionally numbered ones, as a load does, keeps the invariant. |
| ExploreFeed.HandleScrollPreserves | views/ExploreView.tsx:205-211 | Every scroll preserves that invariant. |
| ExploreFeed.InvariantUniqueIds | views/ExploreView.tsx:177 | In a reachable feed no two routes share an id, and at most 21 are loaded. |
| ExploreFeed.ExhaustedIsFinal | views/ExploreView.tsx:170 | Once `hasMore` is false, no scroll changes the feed. |
| Community.TabBar | views/CommunityView.tsx:177-181 | The tab bar offers each of the three tabs exactly once, with distinct labels. |
| Community.CreateMockRoute | views/CommunityView.tsx:76-89 | The template copies id, title, author and cover. The distance is `extra`'s when present, even an empty one, because the spread comes last. The summary is `extra`'s when non-empty and the default otherwise, so it is never empty. Time 2h, climb 80m, rating 4.5, no moments and an avatar seeded by the author are fixed for every `extra`. Likes, aspect ratio and the video flag come from `extra`. |
| Community.MockRouteDefaults | views/CommunityView.tsx:80-87 | Without extras, a post gets 5.2km, 2h, 80m, rating 4.5, no moments and the default summary. |
| Community.LastCodeUnitParity | views/CommunityView.tsx:21 | The last UTF-16 code unit of a character has that character's parity. |
| Community.AspectRatioClass | views/CommunityView.tsx:21 | A non-empty declared class wins. Otherwise the class is 'aspect-[4/5]' exactly when the id is non-empty and its last character is even, and 'aspect-[3/4]' otherwise. |
| Community.ChooseTab | views/CommunityView.tsx:99-102 | A different tab resets the posts to the four seeds and sets `hasMore`. The loading flag and any load in flight are left alone. The same tab changes nothing. |
| Community.BeginLoad | views/CommunityView.tsx:105-108 | A load is ignored while loading or once exhausted. Otherwise it sets `isLoading` and captures the current post count. |
| Community.PostIdInjective | views/CommunityView.tsx:113-117 | The ids d(n) are distinct for distinct n. |
| Community.NewPosts | views/CommunityView.tsx:111-121 | A batch is two posts, d(n) and d(n+1). Each declares one of the known aspect classes, and their like counts are below 1000 and 500. |
| Community.FinishAsWritten | views/CommunityView.tsx:109-128 | The completion as the source has it: the posts are numbered from the captured count and appended to the current list. The ceiling test reads the captured count too: `hasMore` stays true only if it was and that count is at most the ceiling. |
| Community.Finish | views/CommunityView.tsx:111-128 | The corrected completion keeps the current posts and appends d(n+1) and d(n+2), where n is the current length. It clears the loading flag, and `hasMore` survives exactly when n ≤ 20. |
| Community.AtomicLoad | views/CommunityView.tsx:105-129 | A load that nothing interrupts, as the source has it, appends d(n+1) and d(n+2) after the n present posts. It clears `isLoading`, and `hasMore` stays set exactly when n ≤ 20. |
| Community.FinishAgreesWithoutSwitch | views/CommunityView.tsx:111-123 | When the captured count is the current length, the as-written and corrected completions agree. |
| Community.HandleScroll | views/CommunityView.tsx:131-138 | A load begins exactly when the container is mounted and less than 100 remains below the visible part. |
| Community.SeedsInvariant | views/CommunityView.tsx:91-96 | The seeds d1..d4 sit at positions 1..4, each with a known aspect class. |
| Community.InitialInvariant | views/CommunityView.tsx:70-73 | The first state satisfies the feed invariant. |
| Community.FinishNumbers | views/CommunityView.tsx:111-123 | A corrected completion keeps the posts numbered by position. |
| Community.FinishAspects | views/CommunityView.tsx:113-120 | A corrected completion keeps every declared aspect class among the known ones. |
| Community.FinishPreserves | views/CommunityView.tsx:123-128 | A corrected completion preserves the invariant: even length between 4 and 24, positional ids, loading exactly while a load is pending, and more available only up to 22 posts. |
| Community.StepPreserves | views/CommunityView.tsx:99-138 | Every scroll, tab tap and timer preserves the invariant. |
| Community.RunPreserves | views/CommunityView.tsx:99-138 | Every run of events preserves the invariant. |
| Community.UniqueIds | views/CommunityView.tsx:111-117 | With the corrected completion, no two cards share an id under any interleaving of events, and every card's class is a known one. |
| Community.HasMoreOnlyRestoredByTab | views/CommunityView.tsx:101 | `hasMore` goes from false to true only through a change of tab, in both versions. |
| Community.AsWrittenPreservesWithoutSwitch | views/CommunityView.tsx:105-129 | The as-written loader keeps the invariant as long as no tab change lands while a load is in flight. |
| Community.RaceFirstLoad | views/CommunityView.tsx:105-129 | A scroll and its timer take the seeded feed to six posts, with nothing pending. |
| Community.RaceRest | views/CommunityView.tsx:109-123 | From there, a load with a tab switch in its delay, followed by another load, leaves the seeds, then d7 and d8, then d7 and d8 again. |
| Community.AsWrittenDuplicateIds | views/CommunityView.tsx:109-123 | As written, that seven-event run ends with two cards whose id is d7. |
| Notifications.Visible | views/NotificationsView.tsx:67-69 | The system tab shows exactly the system notices, and the other tab exactly the rest. Each notice appears as often as it occurs, in the original order. |
| Notifications.TabsPartition | views/NotificationsView.tsx:67-69 | The two tabs never share a notice, and together they hold every notice exactly as often as it occurs. |
| Notifications.EmptyStateIff | views/NotificationsView.tsx:122 | The placeholder shows if and only if no notice belongs to the tab. |
| Notifications.ClearAllUnread | views/NotificationsView.tsx:85-87 | Every notice becomes read. Length, order and all other fields are unchanged. |
| Notifications.ClearIdempotent | views/NotificationsView.tsx:85-87 | Clearing twice is clearing once. A list is a fixed point exactly when nothing in it is unread. |
| Notifications.FilterClearCommutes | views/NotificationsView.tsx:67-87 | Filtering a tab and clearing can be done in either order. |
| Notifications.ClearKeepsTabs | views/NotificationsView.tsx:67-87 | After clearing, a tab shows the cleared versions of what it showed before. |
| Notifications.DisplayName | views/NotificationsView.tsx:146 | The title is the sender's name, or 系统通知 when there is no sender or the name is empty. |
| Notifications.ThreeThenOne | views/NotificationsView.tsx:67-69 | Three interactions followed by one system notice split as the first three and the last. |
| Notifications.InitialTabs | views/NotificationsView.tsx:22-56 | On the initial list, the interactions tab shows notices 1 to 3 and the system tab shows notice 4. |
| Follows.InitialTab | views/FollowsView.tsx:17-18 | The screen opens on followers if and only if the route parameter is "followers". |
| Follows.InitUsers | views/FollowsView.tsx:24-37 | The list holds 12 users, u_user_100..u_user_111 in order. On the following tab I follow everyone and every fourth user follows me. On the followers tab everyone follows me and I follow every third user. |
| Follows.UserIdInjective | views/FollowsView.tsx:27 | Distinct positions give distinct ids. |
| Follows.InitIdsUnique | views/FollowsView.tsx:26-28 | The initial ids are pairwise distinct. |
| Follows.ChooseTab | views/FollowsView.tsx:24-37 | Switching tabs reinstalls that tab's list, dropping earlier toggles. The current tab changes nothing. |
| Follows.ToggleFollow | views/FollowsView.tsx:43-51 | `isFollowing` flips exactly on the users with that id. Everything else, including length and order, is unchanged. |
| Follows.ToggleTwice | views/FollowsView.tsx:45-50 | Toggling an id twice restores the list. |
| Follows.ToggleCommutes | views/FollowsView.tsx:45-50 | Toggles of two ids commute. |
| Follows.ButtonLabelCases | views/FollowsView.tsx:52-75 | The label is 已关注 if and only if I follow the user. Otherwise it is 回关 if and only if the tab is followers and the user follows me, and 关注 in every other case. |
| Follows.TogglePressedLabel | views/FollowsView.tsx:52-75 | Pressing a button moves its label between 已关注 and the label the user had before being followed. |
| Follows.InitialBadges | views/FollowsView.tsx:131 | On a fresh list, the mutual badge marks exactly every fourth user on the following tab, and no one on the followers tab. |
| Messages.Search | views/MessagesView.tsx:51-53 | The result is an order-preserving subsequence of the threads. It keeps exactly the threads whose lower-cased name contains the lower-cased query, each as many times as it occurs in the list. |
| Messages.EmptyQueryShowsAll | views/MessagesView.tsx:51-53 | An empty query lists every thread. |
| Messages.SearchIgnoresCase | views/MessagesView.tsx:52 | Queries that agree up to ASCII case give the same result. |
| Messages.SearchOfLowered | views/MessagesView.tsx:52 | Lower-casing a query does not change its result. |
| Messages.EmptyStateIff | views/MessagesView.tsx:90 | The placeholder shows if and only if no thread matches. |
| Messages.SearchGuru | views/MessagesView.tsx:16-44 | Searching "GURU" finds the TravelGuru thread alone. |
| Chat.Opened | views/ChatView.tsx:69-84 | The chat opens with two messages. The first is from the route's user, or 'other' when that is missing or empty; the second is mine. Every panel starts closed and the input empty. |
| Chat.SendText | views/ChatView.tsx:102-114 | Blank input changes nothing. Otherwise one text message from me_007 is appended, with the untrimmed input, and earlier messages are kept. Its id is the decimal form of the handler's first `Date.now()` reading and its timestamp the second reading, which may differ from the first. The input is cleared, the emoji picker closes, and the other panels are unchanged. |
| Chat.SendTextIffButton | views/ChatView.tsx:370 | A text send appends a message if and only if the send button is shown. |
| Chat.SendImage | views/ChatView.tsx:116-126 | Appends one image message of mine, then closes the plus menu. The handler reads the clock three times: its id is the first reading in decimal, its URL is seeded by the second, and its timestamp is the third. |
| Chat.SendLocation | views/ChatView.tsx:128-142 | Appends one location message of mine with the fixed place, then closes the plus menu. The id is the first clock reading in decimal and the timestamp the second. |
| Chat.SendVoice | views/ChatView.tsx:144-154 | Appends one 0:12 voice message of mine, then closes the recording overlay. The id is the first clock reading in decimal and the timestamp the second. |
| Chat.ShareRoute | views/ChatView.tsx:156-167 | Appends one route card of mine, then closes the route picker and the plus menu. The id is the first clock reading in decimal and the timestamp the second. |
| Chat.EmojiClick | views/ChatView.tsx:169-171 | An emoji click appends the emoji to the input, sends nothing, and changes nothing else. |
| Chat.EmojiEnablesSend | views/ChatView.tsx:10 | Every emoji in the picker brings up the send button. |
| Chat.TogglePlusMenu | views/ChatView.tsx:348 | The plus button flips its menu and closes the emoji picker. |
| Chat.ToggleEmojiPicker | views/ChatView.tsx:363 | The emoji button flips its picker and closes the plus menu. |
| Chat.StartRecording | views/ChatView.tsx:379 | The mic opens the recording overlay and closes both panels. |
| Chat.CloseRecording | views/ChatView.tsx:390 | Closing the overlay changes nothing else. |
| Chat.OpenRoutePicker | views/ChatView.tsx:295 | The plus menu's share-route button opens the route picker and changes nothing else; the plus menu stays open. |
| Chat.CloseRoutePicker | views/ChatView.tsx:314-318 | The picker's backdrop and close button hide it and change nothing else. |
| Chat.RoutePickerOpenClose | views/ChatView.tsx:156-318 | The route picker opens only through the share-route button. It closes only through its backdrop or close button, or by sharing a route. |
| Chat.PanelsExclusive | views/ChatView.tsx:348-363 | After either button, the plus menu and the emoji picker are not both open. |
| Chat.StepAppendsOnly | views/ChatView.tsx:102-171 | Every action keeps the history and adds at most one message, which is mine. Exactly the send actions add one; a text send adds one only with non-blank input. |
| Detail.Open | views/DetailView.tsx:8-15 | The page redirects home if and only if there is no route. Otherwise every toggle starts off and no comment is liked. |
| Detail.ToggleCommentLike | views/DetailView.tsx:24-26 | One comment flips, with a missing entry counting as not liked. Every other entry is kept. |
| Detail.ToggleCommentLikeTwice | views/DetailView.tsx:24-26 | Two toggles restore what every comment displays, and restore the map itself once the comment has an entry. |
| Detail.CommentLikeCount | views/DetailView.tsx:127 | The count is 12, or 13 exactly while the comment is liked. |
| Detail.ToggleMovesCount | views/DetailView.tsx:123-127 | A toggle moves that comment's count by one and leaves the others alone. |
| Detail.StripUnit | views/DetailView.tsx:81 | A unit appended to text without the unit's first letter is removed exactly. |
| Detail.DisplayDistanceWithoutUnit | views/DetailView.tsx:81 | A distance without "km" is shown unchanged. |
| Detail.DisplayDistanceOfTenths | views/DetailView.tsx:81 | "4.5km"-style distances show their number. |
| Detail.DisplayClimbOfMetres | views/DetailView.tsx:89 | "124m"-style climbs show their number. |
| Detail.DisplayedDistanceParses | views/DetailView.tsx:81 | The shown distance figure parses to the same value as the full distance string. |
| Detail.Summary | views/DetailView.tsx:100 | The summary is the route's when non-empty, and the fallback text otherwise. |
| Detail.ToggleLike | views/DetailView.tsx:145 | Flips the like flag only. |
| Detail.ToggleBookmark | views/DetailView.tsx:152 | Flips the bookmark flag only. |
| Detail.ToggleFollow | views/DetailView.tsx:71 | Flips the follow flag only. |
| Detail.FollowLabel | views/DetailView.tsx:74 | Reads 已关注 if and only if following, and 关注 otherwise. |
| Detail.TogglesTwice | views/DetailView.tsx:145-152 | Each page toggle is an involution. |
| NotificationSettings.InitialValues | views/NotificationSettingsView.tsx:10-16 | Every preference starts on except vibration. |
| NotificationSettings.TogglePref | views/NotificationSettingsView.tsx:18-20 | Negates key k and leaves the other four unchanged. |
| NotificationSettings.ToggleTwice | views/NotificationSettingsView.tsx:18-20 | Toggling a key twice restores the record. |
| NotificationSettings.ToggleCommutes | views/NotificationSettingsView.tsx:18-20 | Toggles of two keys commute. |
| NotificationSettings.KeyOfName | views/NotificationSettingsView.tsx:63 | A recognised item key reads back to the preference it names. |
| NotificationSettings.KeyNameRoundTrip | views/NotificationSettingsView.tsx:63 | Every preference's name reads back to that preference. |
| NotificationSettings.SwitchesCoverPrefs | views/NotificationSettingsView.tsx:22-43 | The sections hold five switches. Every key names a preference, and each preference appears exactly once. |
| NotificationSettings.SwitchOn | views/NotificationSettingsView.tsx:64-66 | A switch shows "on" exactly while its preference is set. |
| NotificationSettings.PressFlipsOneSwitch | views/NotificationSettingsView.tsx:62-66 | Pressing a switch flips what it shows and what no other switch shows. |
| JourneyEditor.Round | views/JourneyEditorView.tsx:24 | `Math.round` gives the integer within half of its input, with halves rounded up. |
| JourneyEditor.Clamp | views/JourneyEditorView.tsx:23 | The offset is clamped to [0, width]. |
| JourneyEditor.SliderPercent | views/JourneyEditorView.tsx:19-26 | A zero-width track gives NaN. Otherwise the result is a whole percent from 0 to 100: 0 left of the track and 100 right of it. |
| JourneyEditor.SliderTracksPointer | views/JourneyEditorView.tsx:23-24 | Inside the track, the percentage is within one half of the pointer's share of the width. |
| JourneyEditor.SliderMonotone | views/JourneyEditorView.tsx:34-35 | Moving the pointer right never moves the slider left. |
| JourneyEditor.Hour | views/JourneyEditorView.tsx:198 | For 0..100, the badge hour lies in 1..13. |
| JourneyEditor.HourRanges | views/JourneyEditorView.tsx:198 | The hour grows with the slider. The badge says 上午 if and only if progress < 50, with hours 1..6; otherwise hours run 7..13, and 13 appears only at 100. |
| JourneyEditor.TimeLabel | views/JourneyEditorView.tsx:198 | The badge is the half-day, a space, the hour and ":30". NaN reads 下午 NaN:30. |
| JourneyEditor.InitialLabel | views/JourneyEditorView.tsx:15 | The opening 65% reads 下午 8:30. |
| JourneyEditor.Step | views/JourneyEditorView.tsx:55-217 | Pointer events only. An event on a control that is covered or not drawn changes nothing. A press on the slider or its handle starts the drag and leaves the input unfocused; the status becomes idle exactly when the input had the focus (its blur handler runs first). A tap on the title wrapper sets editing_title, and focuses the input only when the tap lands on the input itself. |
| JourneyEditor.Blurred | views/JourneyEditorView.tsx:131 | A press off the input removes its focus. It sets idle if the input was focused, and otherwise leaves the status as it was. |
| JourneyEditor.PaddingTapThenSlider | views/JourneyEditorView.tsx:118-131 | After a tap on the wrapper's padding, a slider press leaves the status in editing_title. After a tap on the input itself, the same press returns it to idle. |
| JourneyEditor.FixedTargets | views/JourneyEditorView.tsx:59-216 | + sets menu. The backdrop, overlay close and stop, and blur set idle. The mic sets recording, and a title tap sets editing_title. |
| JourneyEditor.RecordingEntryAndExit | views/JourneyEditorView.tsx:210-216 | With pointer input (every state meeting the invariant), recording is entered only from the menu's mic, and left only through the overlay's buttons, back to idle. |
| JourneyEditor.EditingEntry | views/JourneyEditorView.tsx:118 | Title editing begins only with a tap on the title. |
| JourneyEditor.TitleChanges | views/JourneyEditorView.tsx:129-137 | The title changes only by typing into the focused input, in any status, or by the clear button while editing. Typing sets the title to the typed text and changes nothing else. Clear empties the title and keeps the status and the focus. |
| JourneyEditor.TypingWhileIdle | views/JourneyEditorView.tsx:130-131 | After the window takes the focus away and gives it back, typing changes the title while the status stays idle. |
| JourneyEditor.ProgressChanges | views/JourneyEditorView.tsx:19-53 | The slider moves only under a press on the track, or a move while dragging, on a mounted track. |
| JourneyEditor.StepPreserves | views/JourneyEditorView.tsx:19-137 | A numeric progress always lies in 0..100, and, with pointer input, the input is focused only while the page is uncovered. With positive-width tracks the progress never becomes NaN. |
| JourneyEditor.InitialInvariant | views/JourneyEditorView.tsx:13-15 | The editor opens idle at 65%, with the input unfocused (`autoFocus` is false at mount), and meets the invariant. |
| Track.FromNav | views/TrackView.tsx:12 | A non-empty navigation status is taken, and otherwise the fallback. |
| Track.Opened | views/TrackView.tsx:12-14 | The screen opens ready if and only if no other status was handed over, with the voice overlay closed. |
| Track.NavChanged | views/TrackView.tsx:16-20 | A new navigation status overwrites the current one. Without one nothing changes, and the overlay is never touched. |
| Track.MountEffectIsIdle | views/TrackView.tsx:16-20 | The effect's first run leaves the screen as it opened. |
| Track.Step | views/TrackView.tsx:57-182 | Controls that are covered or not drawn do nothing. |
| Track.Transitions | views/TrackView.tsx:58-182 | Recording is entered only from the draft dialog's two buttons, and draft only from the start button. The voice overlay opens only from the recording controls, and close or stop shuts it. |
| Track.OpenedInvariant | views/TrackView.tsx:12-14 | The voice overlay is closed at mount. |
| Track.StepPreserves | views/TrackView.tsx:135-158 | The voice overlay is open only over the recording controls. |
| Track.NavChangedPreserves | views/TrackView.tsx:16-20 | A navigation status breaks that invariant if and only if it names another status while the overlay is open. |
| Track.RecordingNeedsDraft | views/TrackView.tsx:58-178 | A run that ends in recording from outside it passes through the draft dialog. |
| Track.FreshStartRecordsOnlyAfterDraft | views/TrackView.tsx:12-178 | Starting without a navigation status, recording is reached only by way of the draft dialog. |
| Navbar.ActiveCases | components/Navbar.tsx:16-19 | The root tab is active if and only if the path is "/". Any other tab is active if and only if the path starts with its path. |
| Navbar.AtMostOneActive | components/Navbar.tsx:9-19 | No path activates two tabs. |
| Navbar.ActiveIndex | components/Navbar.tsx:23-31 | The lit tab is active, and when none is lit no tab is active. |
| Navbar.ActiveIndexUnique | components/Navbar.tsx:9-19 | An active tab is the one lit tab. |
| Navbar.Examples | components/Navbar.tsx:16-19 | /detail/1 lights nothing, and each tab's own path lights that tab. |
| RouteCard.Subtitle | components/RouteCard.tsx:37 | An absent, 0 or empty value shows the route's time. Otherwise the text ends in 发布: a phrase is followed by 发布, and a non-zero day count, negative ones included, reads as its decimal form followed by 天前发布. |
| RouteCard.DaysRoundTrip | components/RouteCard.tsx:37 | A positive day count below 10^21 reads "<n>天前发布", and its digits read back as n. |
| RouteCard.DaysInjective | components/RouteCard.tsx:37 | Two positive counts give the same subtitle if and only if they are equal. |
| RouteCard.ThreeDays | components/RouteCard.tsx:37 | Three days reads 3天前发布. |
| RouteCard.TagBadge | components/RouteCard.tsx:26 | The badge is drawn, with the tag as its text, if and only if the tag is a non-empty string. |
| Text.NatToString | views/ExploreView.tsx:177 | `toString` of a whole number below 10^21 is non-empty, all digits, and has no leading zero. |
| Text.NatToStringRoundTrip | views/ExploreView.tsx:177 | For n below 10^21, the digits of `String(n)` read back as n. |
| Text.NatToStringInjective | views/ExploreView.tsx:177 | Distinct numbers render distinctly. |
| Text.IndexOf | views/DetailView.tsx:81 | `indexOf` finds the first occurrence, and finds one if and only if the text contains the pattern. |
| Text.ReplaceFirst | views/DetailView.tsx:81 | `replace` with a string pattern replaces the first occurrence only, and leaves text without the pattern unchanged. |
| Text.TrimEmptyIffBlank | views/ChatView.tsx:103 | `trim()` gives "" if and only if every character is whitespace. |
| Text.Lower | views/MessagesView.tsx:52 | `toLowerCase` maps the ASCII capitals and keeps every other character. |
| Decimal.ParseFloat | views/ExploreView.tsx:163 | `parseFloat` is NaN if and only if the text after whitespace and sign does not begin a decimal literal. |
| Decimal.ParseTenths | views/ExploreView.tsx:185 | `toFixed(1)` output followed by a unit such as "km" parses back to its value. |
| Decimal.ParseInteger | views/ExploreView.tsx:163 | A whole number followed by a non-numeric unit parses to that number. |
| Seqs.FilterCounts | views/NotificationsView.tsx:67-69 | `filter` keeps each accepted element as often as it occurs, and nothing else. |
| Seqs.FilterPartition | views/NotificationsView.tsx:67-69 | Complementary filters split a list's multiset exactly. |
| Seqs.FilterIsSubsequence | views/MessagesView.tsx:51 | `filter` returns an order-preserving subsequence. |
| StableSort.InsertDescending | views/ExploreView.tsx:160-165 | Inserting an item into a descending list keeps it descending. |
| StableSort.Sort | views/ExploreView.tsx:160-165 | The sort is a permutation, and descending by the key. |
| StableSort.SortIsStable | views/ExploreView.tsx:160 | Items with equal keys keep their input order, as ECMA-262 requires of `Array.prototype.sort`. |

## Left out

- Rendering: JSX markup, CSS classes, animations and image-load skeletons. The model keeps the conditions that decide what is drawn.
- `setTimeout` delays, `Date.now()` and `Math.random()`: their results are parameters. Random draws lie in [0, 1). Each `Date.now()` call in a chat send handler is a reading of its own (`Chat.Clock`), with no order assumed between readings.
- React's scheduling is not modelled beyond the event interleavings named here: scroll, tab tap and timer events on the community screen.
- ExploreFeed.LoadMore: a load is one atomic step. Two scroll events in the same tick both pass the `isLoading` guard before React re-renders. That double firing, and any other interleaving inside its 1.5 s delay, is not modelled.
- ExploreFeed.DistanceKey: a distance with no leading number is NaN in the source, and a comparator returning NaN makes the sort order implementation-defined. The model uses key 0 for such strings; every distance the app creates is well formed.
- ExploreFeed.NewRoute: `toFixed(1)` and float rounding of the random distance and rating are not modelled. Their rounded values are inputs, as tenths.
- The category auto-centring and `scrollIntoView` geometry on both screens are DOM measurement and are not modelled.
- Community.CreateMockRoute: only the five keys the template reads or the screen passes are modelled (distance, summary, likes, aspectRatio, isVideo). The screen itself passes only likes, aspectRatio and isVideo. An `extra` key present with the value `undefined` is not distinguished from an absent one.
- Decimal.ParseFloat: `Infinity` and exponent overflow are not modelled. Exponents are modelled but never reached by the app's strings.
- Text.Lower: only ASCII letters are folded, not the whole of Unicode's `toLowerCase`.
- Follows: the loading skeleton shows only until the first effect. The tab-count labels and navigation to a user are not modelled.
- Track: the stop button navigates to /edit-journey. That and every other `navigate(...)` call, the router and App.tsx are framework plumbing.
- Track.FromNav: a navigation status that is not a string (a number, an object) is not modelled.
- JourneyEditor.SliderPercent: computes the pointer's share and `Math.round` in exact reals, where the source uses doubles. At a rounding tie the two can differ: at offset 29 on a track 200 wide the source shows 14 and the model 15, and `SliderTracksPointer`'s bound holds only in exact arithmetic.
- JourneyEditor.Step: only pointer input is modelled. Neither the menu nor the recording overlay traps keyboard focus or makes the page under it inert, so in the source Tab can focus the title input (whose blur then sets idle) or the + button (whose Enter opens the menu) while they are open. `RecordingEntryAndExit`, and the focus clause of `Invariant` kept by `StepPreserves`, therefore hold for pointer use only: the invariant excludes a focused input under the menu or overlay, which the keyboard reaches.
- JourneyEditor: the save and back callbacks, the camera and gallery buttons (which have no handler) and the overlay's restart button (which only logs) are not modelled.
- RouteCard.Subtitle: only whole-number day counts are modelled. A fractional or NaN `publishDaysAgo` is not. The digits match `${n}` only for counts of magnitude below 10^21: JavaScript writes larger numbers in exponent form (`1e+21`).
- RouteCard.DaysRoundTrip: holds for the source only for counts below 10^21; from there on `${n}` is exponent form, whose digits do not read back as n.
- Text.NatToString: the digits match JavaScript's `String(n)` only for n < 10^21; from 10^21 on JavaScript prints exponent form (`String(1e21)` is "1e+21"). The app's ids (at most 21), `Date.now()` values and day counts stay far below that.
- Text.NatToStringRoundTrip: holds for `String(n)` only for n < 10^21, as the line above says.
- Chat: scrolling to the newest message is DOM work and is not modelled.
- Chat.Step: any action can happen in any state. The model does not require the panel that draws a button to be open (the plus menu for the picture, place and share-route buttons, the picker for a route, the overlay for stop). `StepAppendsOnly` and `RoutePickerOpenClose` therefore cover more sequences than the screen allows.
- CommunityView's `posts.length > 20` test lets a tab session grow to 24 posts, not 22. The model keeps the source's test and does not call it a defect, since no ceiling is documented.

## Findings

| source | as written | input that shows it | evidently intended | confidence | as-written member | corrected member |
|---|---|---|---|---|---|---|
| views/CommunityView.tsx:111-126 | The completion of `loadMoreData` numbers its posts from `posts.length` as captured before the 1.5 s await. It appends them to whatever list is current, and nothing cancels it when the tab-change effect replaces the list meanwhile. | Scroll and let the load finish (6 posts). Scroll again, switch tab during the delay (posts back to d1..d4), let it finish, then scroll and finish once more. The list is d1..d4, d7, d8, d7, d8: two cards share the React key d7. | Number the new posts from the list they are appended to, so the card at index k is always d(k+1). | not executed | Community.FinishAsWritten, Community.AsWrittenDuplicateIds | Community.Finish, Community.UniqueIds |
