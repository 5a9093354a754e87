# Match Point screens: local state as pure reducers

Match Point is a mobile app for finding tennis partners, booking courts and chatting.
Its screens keep their working state locally and call a hosted backend for auth and rows.
This project models that local state logic in Dafny. Each event handler becomes a pure
function from the old state (plus the backend's answer) to the new state, and lemmas relate
handlers to each other and to whole sequences of events.

- `Outcomes`: `Option` (present value or `null`/`undefined`) and `Reply` (`Ok(data)` or
  `Err(message)`), the answer of one backend call.
- `Seqs`: `Array.prototype.filter` and `reverse` on sequences, with order, membership,
  length and duplicate-freedom lemmas.
- `Text`: `String.prototype.trim` with ECMAScript's white-space set, and `split(' ')[0]`.
- `Schedule` (onboarding availability): the shared toggle rule for days and periods, and
  which day buttons are drawn active.
- `Chat` (chat screen): the send guard and append, the highlighted send button, the
  newest-first display, and the message log over any sequence of events.
- `ManageGame` (host's game screen): the load, the required-field check on update, and the
  local participant filter after a kick.
- `Session` (auth context): user, cached profile and loading flag across session load and
  auth events; `signIn`/`signUp`/`signOut` error propagation.
- `EditProfile` (profile form): initialisation from the cached profile, the closed hand and
  level choices, and the trimmed-name save guard.
- `GameDetails` (game screen): the idle/requesting/confirmed join machine, the button label,
  the players' first names and the route-parameter defaults.
- `ClubBooking` (club screen): the available-slot gate, day selection, total price and Confirm.

The chat keeps a local list seeded with three mock messages, and a sent message is appended
at once, with no backend round trip and no echo.

The two day buttons labelled "S" and the two labelled "T" always share their active state.
The label is what is stored, so the two buttons cannot be told apart.

Toggling the same item twice restores the list when the item was not selected, or when it
was selected once and was the last item. Otherwise the item comes back at the end of the list.
Starting from the initial days `["M", "W", "F"]`, toggling "M" twice gives `["W", "F", "M"]`,
while toggling "F" twice gives the initial days back. On a duplicate-free list the same items
come back, each once (`Schedule.ToggleTwiceSelected`, `Schedule.ToggleTwiceLastRestored`,
`Schedule.ToggleTwiceReorders`).

## Model

| member | source | states |
|---|---|---|
| `Seqs.Filter` | src/screens/main/ManageGameScreen.js:99 | the result is a subsequence of the input (order kept) holding every passing element as many times as the input does and no failing one |
| `Seqs.Reverse` | src/screens/main/ChatScreen.js:56 | position i of the result holds the input's element counted i places from the end |
| `Text.Trim` | src/screens/main/ChatScreen.js:17 | the result is an infix of the input, everything before and after it is white space, it has no white space at either end, and it is empty exactly when every character is white space |
| `Text.FirstWord` | src/screens/main/GameDetailsScreen.js:22 | the result is a prefix of the name, contains no space, and is followed by a space unless it is the whole name |
| `Schedule.Initial` | src/screens/onboarding/OnboardingSchedule.js:42-43 | the opening selections have no duplicates; exactly the M, W and F buttons and the afternoon and evening cards are active |
| `Schedule.Toggle` | src/screens/onboarding/OnboardingSchedule.js:45-53 | a selected item leaves the list entirely (it gets shorter); an unselected one is appended after the unchanged list; every other item keeps its membership |
| `Schedule.ToggleDay` | src/screens/onboarding/OnboardingSchedule.js:45-48 | a day tap flips that day's membership, keeps every other day's, and leaves the periods alone |
| `Schedule.ToggleTime` | src/screens/onboarding/OnboardingSchedule.js:50-53 | a period tap follows the same rule on the periods and leaves the days alone |
| `Schedule.ToggleSelectedCount` | src/screens/onboarding/OnboardingSchedule.js:46 | toggling a selected item removes every copy of it and nothing else: the multiset loses exactly that item and the list shrinks by its number of occurrences |
| `Schedule.ToggleKeepsOthersInOrder` | src/screens/onboarding/OnboardingSchedule.js:45-47 | with the toggled item removed, the list before and after are equal, so the other items keep their order and count |
| `Schedule.ToggleKeepsNoDup` | src/screens/onboarding/OnboardingSchedule.js:45-47 | a duplicate-free list stays duplicate-free |
| `Schedule.ToggleTwiceUnselected` | src/screens/onboarding/OnboardingSchedule.js:45-47 | toggling an unselected item twice gives the original list |
| `Schedule.ToggleTwiceSelected` | src/screens/onboarding/OnboardingSchedule.js:45-47 | toggling a selected item twice on a duplicate-free list gives the same multiset, with the item moved to the end |
| `Schedule.ToggleTwiceLastRestored` | src/screens/onboarding/OnboardingSchedule.js:45-47 | on a duplicate-free list, toggling the last item twice gives the original list back |
| `Schedule.ToggleTwiceReorders` | src/screens/onboarding/OnboardingSchedule.js:42-47 | on the initial days, toggling "M" twice gives `["W", "F", "M"]`, not the original order |
| `Schedule.SameLabelSameActive` | src/screens/onboarding/OnboardingSchedule.js:74-79 | buttons with the same label are drawn alike, and tapping one flips both |
| `Schedule.WeekendAndMidweekButtonsShare` | src/screens/onboarding/OnboardingSchedule.js:74-78 | the two "S" buttons share one active flag, as do the two "T" buttons |
| `Schedule.ReachableWellFormed` | src/screens/onboarding/OnboardingSchedule.js:42-101 | after any taps from the opening screen, both lists are duplicate-free and hold only on-screen labels |
| `Chat.Initial` | src/screens/main/ChatScreen.js:5-14 | the screen opens with three messages and an empty input |
| `Chat.Send` | src/screens/main/ChatScreen.js:16-26 | blank input changes nothing; otherwise exactly one message from "me" with the untrimmed text is appended after the unchanged list, and the input is cleared |
| `Chat.SendHighlighted` | src/screens/main/ChatScreen.js:96-98 | the send button is highlighted exactly when the input holds a character that is not white space |
| `Chat.Displayed` | src/screens/main/ChatScreen.js:56 | the list handed to the view is the message list in reverse order |
| `Chat.HighlightedIffSendChanges` | src/screens/main/ChatScreen.js:96-98 | the send button is highlighted exactly when pressing it changes the state |
| `Chat.SendShowsNewestFirst` | src/screens/main/ChatScreen.js:56 | after a send the new message heads the display, followed by the previous display |
| `Chat.ApplyKeepsLog` | src/screens/main/ChatScreen.js:16-87 | typing (the text field's change handler) or sending never removes or reorders a message, and only appends messages from "me" with non-blank text |
| `Chat.RunKeepsLog` | src/screens/main/ChatScreen.js:16-26 | over any event sequence, earlier messages stay as a prefix and the log invariant holds |
| `Chat.ReachableLog` | src/screens/main/ChatScreen.js:5-26 | whatever is typed and sent, the three seeded messages stay first and every later one is a non-blank message from "me" |
| `ManageGame.Initial` | src/screens/main/ManageGameScreen.js:9-15 | the screen opens loading, not saving, with empty fields and no participants |
| `ManageGame.FetchGameDetails` | src/screens/main/ManageGameScreen.js:22-52 | loading ends false on every path; an error navigates back; fields come from the game row and participants from the second query, each only when its query succeeds |
| `ManageGame.Update` | src/screens/main/ManageGameScreen.js:54-77 | no update is sent exactly when title, location or date is empty (white space counts as filled), and then nothing changes; otherwise the current fields are sent, saving ends false, and only success navigates back |
| `ManageGame.FetchThenUpdate` | src/screens/main/ManageGameScreen.js:22-66 | saving the loaded fields unchanged sends back exactly the loaded row, and is refused exactly when one of its fields is empty |
| `ManageGame.Kick` | src/screens/main/ManageGameScreen.js:88-104 | a failed delete changes nothing; a successful one leaves exactly the rows of other users, each as many times as before, as a subsequence of the old list; other fields are untouched |
| `ManageGame.KickIdempotent` | src/screens/main/ManageGameScreen.js:99 | kicking the same user again gives the same list |
| `ManageGame.KickCount` | src/screens/main/ManageGameScreen.js:162 | the shown player count never grows on a kick, and drops exactly when the user had a row |
| `ManageGame.RunKeepsList` | src/screens/main/ManageGameScreen.js:54-104 | after any edits, saves and kicks, loading and saving are false and the player list is a subsequence of the list it started from |
| `ManageGame.ScreenAfterLoad` | src/screens/main/ManageGameScreen.js:18-104 | from the load on, loading and saving stay false; after a successful load every shown player was loaded, in the same order; after a failed load none is shown |
| `Session.Initial` | src/lib/AuthContext.js:7-9 | the store starts with no user, no profile, and loading |
| `Session.FetchProfile` | src/lib/AuthContext.js:12-27 | an empty id changes nothing; a row returned without error replaces the profile; any other answer keeps the old one |
| `Session.LoadSession` | src/lib/AuthContext.js:30-40 | the user is the stored session's; the profile is fetched only with a user, and a failed or empty fetch keeps the previous one; loading ends false |
| `Session.OnAuthStateChange` | src/lib/AuthContext.js:44-52 | the user is the event's; with no user the profile is cleared; with one, a successful fetch sets it and a failed one keeps the previous profile; loading ends false |
| `Session.SignIn` | src/lib/AuthContext.js:57-60 | raises exactly when the backend reports an error, with that error |
| `Session.SignUp` | src/lib/AuthContext.js:62-65 | raises exactly when the backend reports an error, with that error |
| `Session.SignOut` | src/lib/AuthContext.js:67-69 | an error object in the answer is ignored; a rejected call raises, with its error |
| `Session.RunNotLoading` | src/lib/AuthContext.js:51 | once loading is false, no auth event sets it back |
| `Session.BootNotLoading` | src/lib/AuthContext.js:30-51 | after the session load and any auth events, loading is false |
| `Session.RunKeepsNoOrphanProfile` | src/lib/AuthContext.js:44-52 | auth events never leave a profile cached without a user |
| `Session.BootNoOrphanProfile` | src/lib/AuthContext.js:30-52 | from the start, a profile is never cached without a user |
| `Session.StaleProfileAfterFailedFetch` | src/lib/AuthContext.js:44-47 | as written, user "a" signs in, then an event for user "b" has a failed fetch; "a"'s profile stays cached with "b" signed in |
| `Session.FetchProfileIntended` | src/lib/AuthContext.js:12-27 | the intended fetch gives a profile exactly when a row came back for a non-empty id, and nothing otherwise |
| `Session.OnAuthStateChangeIntended` | src/lib/AuthContext.js:44-52 | with the intended fetch and an honest backend, the cached profile belongs to the signed-in user |
| `Session.RunIntendedProfileOwned` | src/lib/AuthContext.js:44-52 | with the intended handler, the profile belongs to the user after any sequence of honest events |
| `Session.BootIntendedProfileOwned` | src/lib/AuthContext.js:30-52 | the same holds from the start, through the session load |
| `EditProfile.Initial` | src/screens/main/EditProfileScreen.js:17-20 | the form opens with empty fields and not loading |
| `EditProfile.OrEmpty` | src/screens/main/EditProfileScreen.js:25-27 | a null column reads as "", a present one as itself |
| `EditProfile.OnProfile` | src/screens/main/EditProfileScreen.js:23-29 | a present profile fills the three fields, "" for null columns; an absent profile leaves the form as it is |
| `EditProfile.SetHand` | src/screens/main/EditProfileScreen.js:98-105 | the hand becomes "destro" exactly when the Destro button is tapped and "canhoto" otherwise, and nothing else changes |
| `EditProfile.SetLevel` | src/screens/main/EditProfileScreen.js:116-119 | the level becomes the id listed for the tapped level, one of the four ids, and nothing else changes |
| `EditProfile.LevelIdsMatchLevels` | src/screens/main/EditProfileScreen.js:7-12 | the four level buttons store the four distinct ids of the level table, in order |
| `EditProfile.Save` | src/screens/main/EditProfileScreen.js:31-60 | a name that trims to nothing sends nothing and changes nothing; otherwise the untrimmed name goes out with the current hand and level for the signed-in user; loading ends false and only success navigates back |
| `EditProfile.SaveLoadedProfile` | src/screens/main/EditProfileScreen.js:23-45 | saving right after the profile filled the form sends the profile's own values, "" for null columns, under the signed-in user's id, and sends nothing exactly when its name is blank |
| `EditProfile.RunWithoutProfile` | src/screens/main/EditProfileScreen.js:96-121 | until a profile is loaded, hand and level hold only button values or "", and loading stays false |
| `GameDetails.Initial` | src/screens/main/GameDetailsScreen.js:30 | the status starts idle with no timer |
| `GameDetails.Tap` | src/screens/main/GameDetailsScreen.js:32-35 | an enabled tap moves idle to requesting and starts the timer; a disabled button ignores the tap |
| `GameDetails.TimerFires` | src/screens/main/GameDetailsScreen.js:35 | a pending timer confirms; with none, nothing changes |
| `GameDetails.RunProgresses` | src/screens/main/GameDetailsScreen.js:30-35 | events only move the status forward, and a timer is pending exactly while requesting |
| `GameDetails.ConfirmedIsTerminal` | src/screens/main/GameDetailsScreen.js:30-35 | once confirmed, no event sequence leads to another status |
| `GameDetails.JoinCalledAtMostOnce` | src/screens/main/GameDetailsScreen.js:95 | the join handler runs at most once, and not at all once the status has left idle |
| `GameDetails.ReachableJoin` | src/screens/main/GameDetailsScreen.js:30-35 | from the opening screen, any tap/timer sequence runs the join at most once and stays consistent |
| `GameDetails.ButtonTexts` | src/screens/main/GameDetailsScreen.js:100-112 | exactly one label is rendered, and it is the one of the current status |
| `GameDetails.PlayerFirstName` | src/screens/main/GameDetailsScreen.js:6-22 | the circles show "Rafael", "Ana", "Vaga", "Vaga" |
| `GameDetails.Header` | src/screens/main/GameDetailsScreen.js:29 | a missing title or date (or missing params) shows "Parque Ibirapuera" / "Amanhã, 08:00"; a present value, even "", is shown as given |
| `ClubBooking.Initial` | src/screens/booking/ClubDetailsScreen.js:49-50 | no slot is selected and the first day (index 0) is selected |
| `ClubBooking.TapSlot` | src/screens/booking/ClubDetailsScreen.js:27-31 | only an available slot's button selects it; any other tap changes nothing; the day is kept |
| `ClubBooking.PriceLabel` | src/screens/booking/ClubDetailsScreen.js:41-43 | a price line, carrying the hourly price, is drawn exactly for available slots |
| `ClubBooking.TapDate` | src/screens/booking/ClubDetailsScreen.js:112-116 | a day button selects its index and keeps the slot; there is no button past the fifth |
| `ClubBooking.DayNumber` | src/screens/booking/ClubDetailsScreen.js:119 | the day number is 14 plus the index, from 14 to 18 |
| `ClubBooking.TotalCents` | src/screens/booking/ClubDetailsScreen.js:147 | the total is the hourly price or zero, and positive exactly when Confirm is enabled |
| `ClubBooking.RunKeepsValid` | src/screens/booking/ClubDetailsScreen.js:126-135 | taps keep the selected slot available and the day index on screen |
| `ClubBooking.ReachableValid` | src/screens/booking/ClubDetailsScreen.js:49-57 | after any taps, the selection is null or an available slot's id, and the day index is 0 to 4 |
| `ClubBooking.SlotIdsDistinct` | src/screens/booking/ClubDetailsScreen.js:52-57 | the slot ids are distinct and non-empty |
| `ClubBooking.ValidFooter` | src/screens/booking/ClubDetailsScreen.js:132-153 | in a reachable state, Confirm is enabled and the price charged exactly when a slot is selected, and at most one slot is drawn selected |

## Left out

- The backend client and every query, insert, update, delete and auth call: each answer is a `Reply` parameter of the handler that awaits it.
- Alerts, styling, layout and navigation. Only whether a handler calls `navigation.goBack` is kept, as a `leaves` flag.
- Asynchronous interleaving: each handler runs to completion before the next event. The window while `saving`/`loading` is true, and taps during it, are not modelled. Overlapping auth callbacks and a `loadSession` that resolves after an auth event are not modelled either.
- The 1.5-second `setTimeout` in the game screen is a plain `TimerFired` event. A timer firing after the screen is gone is not modelled.
- `Date.now()` message ids and `toLocaleTimeString` times are parameters of `Chat.Send`.
- The `updated_at` timestamp in the profile update is a clock value and is left out of `ProfileUpdate`.
- Price formatting with `toFixed`: prices are integer cents. The footer shows "0,00" with a comma and "120.00" with a point; that formatting difference is not modelled.
- `getSession` rejecting, which would leave `loading` true, is not modelled: the stored session is an `Option` parameter.
- Backend rows whose text columns are null in the game screen (`game.title` and so on) are modelled as strings.
- The chat header's `name`/`image` route defaults and the kick dialog's Cancel button only affect display; Cancel sends no event.
- The screens with no logic beyond setters (home, create game, login, profile, search, messages list, the other onboarding steps, app wiring, theme config) are not part of this model.
- `Text.Trim` uses the ECMAScript white-space set as of current Unicode; the JavaScript engine's Unicode version may differ.

## Findings

| source | as written | input that shows it | evidently intended | confidence | as-written member | corrected member |
|---|---|---|---|---|---|---|
| src/lib/AuthContext.js:21-23,44-47 | an auth event for a signed-in user keeps the previous cached profile when that user's profile fetch fails or returns no row | user "a" signs in and their profile loads; an auth event for user "b" then arrives and the profile fetch errors; user is "b", profile is "a"'s | a failed profile load leaves the profile empty while the user stays set, so the cached profile always belongs to the signed-in user; as written, the edit form (src/screens/main/EditProfileScreen.js:23-29) fills in "a"'s name and its save (line 45) writes it into "b"'s row | medium; not executed | `Session.StaleProfileAfterFailedFetch` | `Session.OnAuthStateChangeIntended` |
