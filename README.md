# Book player core of BookSummarizer, in Dafny

BookSummarizer is an iOS audiobook player. It has one screen, which plays a bundled audiobook chapter by chapter. This project models the core of that screen and proves properties of the model:

- **The reducer of the player feature.** Its state holds:
  - the playback speed;
  - the play/pause flag;
  - the progress through the current chapter;
  - the chapter index;
  - the chapter list;
  - the cover.

  The reducer handles all twelve actions:
  - the speed, play/pause, seek, rewind, fast-forward, previous- and next-chapter buttons;
  - the metadata request and the two assignments it answers with;
  - player creation;
  - progress updates.
- **The media manager singleton.** It holds the current progress, the current chapter id and the stored periodic time observer. Its operations are `removeCurrentObserver`, `setTimeObserver` and the observer's callback.
- **The chapter id counter**, and the loop that turns metadata groups into chapters.
- **The "M:SS" time text.** It is built from `String(Double)` by the character loops of `getMinutesFromSeconds` and `getSecondsAfterDot`. The conversion from a progress to seconds (`progressToCMTime`) is modelled with it.
- **The screen's guard on the time notification.** A progress update is delivered only while the chapter index equals the manager's `currentChapterId`.

## Modules

- `Optional` (optional.dfy): Swift's optional `T?`.
- `TimeCodec` (time_codec.dfy):
  - a model of `String(Double)`: sign, integer digits, `.`, fraction digits;
  - the characters before the first dot;
  - parsing the minutes back as a number;
  - `showStringTime` and its two helpers, as loops proved against specification functions;
  - the reference `Clock(n)`, which is whole minutes, `:` and two second digits;
  - `progressToCMTime`.
- `Chapters` (chapters.dfy):
  - the `Chapter` value;
  - the static counter as a `ChapterCounter` object;
  - the metadata-group loop of `loadChapters`.
- `Media` (media.dfy):
  - `Player`, an abstract player. It keeps its rate, current time and registered observers, and logs every command it receives.
  - `Observer`, a token that remembers the chapter its callback captured.
  - `MediaManager`, with its three fields and its observer bookkeeping.
- `BookPlayer` (book_player.dfy):
  - `Snapshot`, the value of the state, with the computed properties;
  - `Step`, what an action does to the state, as the reducer is written;
  - `StepCorrected`, the same with the previous-chapter step fixed (see "Findings"), about which the properties of the intended design are proved;
  - `Effects`, which actions its effect sends back;
  - `PlayerState.PlayerEffects`, what the player and the observer bookkeeping receive;
  - `PlayerState`, the state as an object that the reducer updates in place. `Reduce` dispatches each action to its own method, except that `.getMetadata` changes nothing and has no method, and rewind and fast-forward share `SkipBy`. It is proved to do exactly `Step`, `Effects` and `PlayerEffects`.

Conventions:

- Speeds are counted in quarters of normal speed: 4 is 1.0x, 2 is 0.5x and 8 is 2.0x. The player's rate is 0 while paused.
- Chapter starts and positions are real seconds.
- Effects are modelled as the list of actions they send, in order.
- Three inputs are parameters:
  - the asset provider's answers, as `Assets`;
  - whether the audio file is found in the bundle;
  - the time of each observer sample.

The model follows the code, also where a reader might expect otherwise:

- Nothing is clamped. One might expect progress to be kept within [0, 1] and seeks within the asset, but progress is stored as given, seeks go wherever they are sent, and rewinding near the start seeks below 0.
- One might expect a new time observer to replace the old one. Instead `.assignChapters` installs a new observer without removing the one already registered, so two can be live at once. The `Reduce` contract keeps "single observer" only when that action starts with no observer registered.
- One might expect a chapter of length 0 to report progress 0. In the code its progress is a non-finite value (see "Left out").
- One might expect the player to be created once. Instead `.initAvPlayer` replaces an existing player every time the audio file is found.
- `.previousChapterButtonTapped` stores the index it leaves as `currentChapterId`, one above the new index, and the screen then drops progress updates (see "Findings"). `Step`, `Run` and `PlayerState` keep this behaviour. `StepCorrected` and `RunCorrected` are the intended behaviour, and the rows below that name them say so.

## Model

| member | source | states |
|---|---|---|
| TimeCodec.CharactersBeforeDot | BookSummarizer/Helper/AudioPlayer.swift:167-173 | The character loop keeps exactly the characters before the first ".", and nothing when there is no dot. |
| TimeCodec.GetMinutesFromSeconds | BookSummarizer/Helper/AudioPlayer.swift:164-176 | The minutes text is the part of `String(number / 60)` before the dot. |
| TimeCodec.GetSecondsAfterDot | BookSummarizer/Helper/AudioPlayer.swift:178-201 | The seconds text is the integer part of the seconds left after the whole minutes, with a "0" put in front of a single character. It is "" when the minutes text does not parse. |
| TimeCodec.ShowStringTime | BookSummarizer/Helper/AudioPlayer.swift:158-162 | The time text is minutes, ":" and seconds. With positional printing of doubles, for every non-negative input it equals the clock text of the whole seconds (see "Left out" for exponent form). |
| TimeCodec.BeforeDotOfDoubleText | BookSummarizer/Helper/AudioPlayer.swift:166-173 | The text before the dot of a double's text is its sign and integer digits. |
| TimeCodec.ParseIntegerPart | BookSummarizer/Helper/AudioPlayer.swift:179 | Reading the integer-part text back as a number gives the value truncated toward zero. |
| TimeCodec.MinutesAlwaysParse | BookSummarizer/Helper/AudioPlayer.swift:179-200 | With positional printing of doubles, the minutes text always parses, to s/60 truncated, so the "" branch is never taken (see "Left out"). |
| TimeCodec.DigitsRoundTrip | BookSummarizer/Helper/AudioPlayer.swift:179 | Reading the decimal digits of n back gives n. |
| TimeCodec.ShowsMinutes | BookSummarizer/Helper/AudioPlayer.swift:164-176 | For s >= 0 and positional printing of doubles, the minutes text is the digits of floor(s)/60 and parses back to that number (see "Left out"). |
| TimeCodec.ShowsSeconds | BookSummarizer/Helper/AudioPlayer.swift:178-197 | For s >= 0 and positional printing of doubles, the seconds text is exactly two digits, those of floor(s) mod 60 (see "Left out"). |
| TimeCodec.ShowsClock | BookSummarizer/Helper/AudioPlayer.swift:158-162 | For s >= 0 and positional printing of doubles, the time text is `Clock(floor(s))`: whole minutes, ":", and two second digits (see "Left out"). |
| TimeCodec.TimeTextExamples | BookSummarizer/Helper/AudioPlayer.swift:158-162 | 0 shows as "0:00" and 65 as "1:05". |
| TimeCodec.NegativeSecondsExample | BookSummarizer/Helper/AudioPlayer.swift:158-201 | A negative time keeps its sign in both parts: -65 shows as "-1:-5". |
| TimeCodec.ProgressToSeconds | BookSummarizer/Helper/AudioPlayer.swift:139-148 | `duration / (1 / value)` is duration times value, 0 at value 0. It is non-negative for non-negative inputs, and within [0, duration] for a value in [0, 1]. |
| Chapters.ChapterCounter.constructor | BookSummarizer/Helper/AudioPlayer.swift:12 | The counter starts at 0. |
| Chapters.ChapterCounter.NewChapter | BookSummarizer/Helper/AudioPlayer.swift:18-24 | The counter goes up by one first, and the new chapter takes it as its id. |
| Chapters.ChaptersFromMetadata | BookSummarizer/Helper/AudioPlayer.swift:61-70 | Each group, in order, becomes a chapter with the next id, its title or "Chapter", its start, and its length truncated to whole seconds. The ids are the old counter + 1, + 2, and so on, so they strictly increase. |
| Chapters.SuccessiveLoadsDistinct | BookSummarizer/Helper/AudioPlayer.swift:12-24 | Two lists made one after the other are numbered on from each other, so together their ids strictly increase and the two lists share no id. |
| Media.ObservedProgress | BookSummarizer/Helper/AudioPlayer.swift:130-133 | The callback's progress times the length is the time since the chapter start. It lies in [0, 1] inside the chapter. There is no value for a zero-length chapter. |
| Media.MediaManager.constructor | BookSummarizer/Helper/AudioPlayer.swift:27-33 | The manager starts with progress 0, chapter id 0 and no stored observer. |
| Media.MediaManager.RemoveCurrentObserver | BookSummarizer/Helper/AudioPlayer.swift:120-124 | The stored observer, if any, is unregistered from the player and nothing else changes. The field still holds it. |
| Media.MediaManager.SetTimeObserver | BookSummarizer/Helper/AudioPlayer.swift:126-136 | A new observer for the chapter is registered and stored. The one stored before stays registered. |
| Media.MediaManager.TimeObserverFired | BookSummarizer/Helper/AudioPlayer.swift:129-135 | A registered observer's callback stores the progress through its own captured chapter and posts. |
| BookPlayer.NextSpeed | BookSummarizer/BookPlayerFeature.swift:80-81 | The speed goes up a quarter below 2.0x and back to 0.5x from 2.0x. It stays within [0.5x, 2.0x]. |
| BookPlayer.SpeedCycleFromNormal | BookSummarizerTests/BookPlayerFeatureTests.swift:68-95 | Running the reducer from the initial state, the speed after 1 to 7 speed changes is 1.25, 1.5, 1.75, 2.0, 0.5, 0.75 and 1.0. |
| BookPlayer.RepeatedSpeedChanges | BookSummarizer/BookPlayerFeature.swift:79-88 | Speed changes alter the speed and no other state field. |
| BookPlayer.SpeedPeriod | BookSummarizer/BookPlayerFeature.swift:80-81 | Every speed from 0.5x to 2.0x returns, and the whole state with it, after exactly seven changes. |
| BookPlayer.SpeedBoundsAfterRun | BookSummarizer/BookPlayerFeature.swift:79-88 | Once within [0.5x, 2.0x], the speed stays there under any sequence of actions. |
| BookPlayer.PlayPauseTwice | BookSummarizer/BookPlayerFeature.swift:90-96 | A tap flips `isPlaying`, and two taps restore the state. |
| BookPlayer.Snapshot.CurrentChapter | BookSummarizer/BookPlayerFeature.swift:54-57 | The current chapter is `chapters[n]` exactly when n <= count - 1, and none otherwise. |
| BookPlayer.Snapshot.CurrentChapterTitle | BookSummarizer/BookPlayerFeature.swift:44-47 | The title is the current chapter's, or "" when there is none. |
| BookPlayer.Snapshot.CurrentTimeString | BookSummarizer/BookPlayerFeature.swift:24-34 | "0:00" without a chapter. Otherwise the time text of `progressToCMTime(progress, length)`, that is of progress times the chapter length. |
| BookPlayer.Snapshot.ChapterDurationString | BookSummarizer/BookPlayerFeature.swift:35-42 | "0:00" without a chapter. Otherwise the time text of the chapter length. |
| BookPlayer.CurrentTimeShowsClock | BookSummarizer/BookPlayerFeature.swift:24-34 | For any progress >= 0, unclamped, and positional printing of doubles, the position text is the clock text of the whole seconds of progress times the chapter length (see "Left out"). Without a chapter it is "0:00". |
| BookPlayer.DurationShowsClock | BookSummarizer/BookPlayerFeature.swift:35-42 | The length text is the clock text of the chapter length, and "0:00" without a chapter. |
| BookPlayer.ZeroLengthChapterShowsZero | BookSummarizer/BookPlayerFeature.swift:35-42 | A chapter of length 0 shows "0:00". |
| BookPlayer.InitialIsPaused | BookSummarizer/BookPlayerFeature.swift:18-58 | The screen starts paused at 1.0x with no chapter, an empty title and "0:00" twice. |
| BookPlayer.PreviousChapterAsWritten | BookSummarizer/BookPlayerFeature.swift:109-126 | Past index 0, previous moves the index down one and restarts the chapter, and `currentChapterId` keeps the old index, one above the new one. At index 0 nothing changes. |
| BookPlayer.PreviousChapterCorrected | BookSummarizer/BookPlayerFeature.swift:109-126 | Corrected: the same move with `currentChapterId` equal to the new index. It differs from the as-written step in `currentChapterId` only. |
| BookPlayer.Step | BookSummarizer/BookPlayerFeature.swift:75-206 | The reducer as written, on the state's value. Only next and previous move the index or `currentChapterId`. Only assigning chapters changes the list, and only assigning artwork changes the cover. Only play/pause flips `isPlaying`, and only a speed change changes the speed. |
| BookPlayer.StepCorrected | BookSummarizer/BookPlayerFeature.swift:75-206 | Corrected: it agrees with `Step` on every action but previous, and even there it differs in `currentChapterId` only. |
| BookPlayer.NavigationStopsAtEnds | BookSummarizer/BookPlayerFeature.swift:109-147 | Next does nothing at or past the last chapter, an empty list included. Previous does nothing at index 0. |
| BookPlayer.NavigationMovesByOne | BookSummarizer/BookPlayerFeature.swift:109-164 | Next and previous move the index by exactly one, reset progress to 0 and keep the list. Next sets `currentChapterId` to the new index. Previous, as written, sets it to the old index, one above the new one. The corrected previous step sets it to the new index. |
| BookPlayer.NextThenPrevious | BookSummarizerTests/BookPlayerFeatureTests.swift:47-65 | Next then previous returns to the starting chapter, at progress 0. As written, `currentChapterId` is left one above the index. |
| BookPlayer.NextThenPreviousCorrected | BookSummarizerTests/BookPlayerFeatureTests.swift:47-65 | Corrected: next then previous returns to the starting chapter at progress 0, with `currentChapterId` equal to its index. |
| BookPlayer.IndexStaysInRange | BookSummarizer/BookPlayerFeature.swift:75-206 | Every action except assigning a new list keeps an in-range index in range. |
| BookPlayer.ShorterListHidesChapter | BookSummarizer/BookPlayerFeature.swift:179-182 | A list no longer than the index leaves the index alone, with no current chapter: an empty title and "0:00" twice. |
| BookPlayer.AssignChaptersKeepsIndex | BookSummarizer/BookPlayerFeature.swift:179-188 | Assigning chapters never moves the index, and assigning none changes nothing. |
| BookPlayer.Effects | BookSummarizer/BookPlayerFeature.swift:166-204 | Only the metadata request and a progress of at least 1.0 send actions: the artwork then the chapters, or the next-chapter tap. |
| BookPlayer.AutoAdvance | BookSummarizer/BookPlayerFeature.swift:198-204 | Before the last chapter, a progress of at least 1.0 followed by its effect lands at the start of the next chapter. |
| BookPlayer.EffectsSettle | BookSummarizer/BookPlayerFeature.swift:166-204 | The actions an effect sends send nothing further. |
| BookPlayer.GateStaysOpen | BookSummarizer/BookPlayerView.swift:132-135 | Corrected: every action of `StepCorrected` keeps index and `currentChapterId` equal, so the screen never drops a progress update. |
| BookPlayer.GateOpenAfterRun | BookSummarizer/BookPlayerView.swift:132-135 | Corrected: the same holds under any sequence of actions of `RunCorrected`. |
| BookPlayer.GateOffByAtMostOne | BookSummarizer/BookPlayerFeature.swift:109-164 | As written, every action keeps `currentChapterId` equal to the index or one above it. Only previous closes an open gate, and only next reopens a closed one. |
| BookPlayer.GateOffByAtMostOneAfterRun | BookSummarizer/BookPlayerView.swift:132-135 | As written, the same holds under any sequence of actions. |
| BookPlayer.ReachableInvariants | BookSummarizer/BookPlayerFeature.swift:18-58 | From the initial state as written, the speed stays in [0.5x, 2.0x] and `currentChapterId` is the index or one above it. With the corrected step the gate stays open. |
| BookPlayer.PreviousAsWrittenClosesGate | BookSummarizer/BookPlayerFeature.swift:115-116 | As written, previous from an open gate leaves `currentChapterId` one above the new index. The corrected step differs from it only in that field. |
| BookPlayer.PreviousAsWrittenExample | BookSummarizerTests/BookPlayerFeatureTests.swift:52-64 | From the initial state, load two chapters, go next, then go previous. As written this leaves index 0 with `currentChapterId` 1, a closed gate. Corrected, both are 0. |
| BookPlayer.PlayerState.constructor | BookSummarizer/BookPlayerFeature.swift:18-58 | The state starts at 1.0x, paused, progress 0, index 0, no chapters, the bundled cover and no player. |
| BookPlayer.PlayerState.PlaybackSpeedChanged | BookSummarizer/BookPlayerFeature.swift:79-88 | The speed steps. The player gets the new rate, then a pause when not playing. |
| BookPlayer.PlayerState.PlayPauseButtonTapped | BookSummarizer/BookPlayerFeature.swift:90-96 | `isPlaying` flips. The player gets the speed as its rate when playing starts, and a pause otherwise. |
| BookPlayer.PlayerState.ProgressChanged | BookSummarizer/BookPlayerFeature.swift:98-107 | Progress is set. With a chapter and a player, the player seeks to the chapter start plus progress times its length. |
| BookPlayer.PlayerState.GoToChapter | BookSummarizer/BookPlayerFeature.swift:148-163 | The stored observer is unregistered. The index moves to the target, `currentChapterId` takes the id the caller gives, and progress is 0. If the chapter exists, a new observer for it is registered and stored, and the player seeks to its start. |
| BookPlayer.PlayerState.PreviousChapterButtonTapped | BookSummarizer/BookPlayerFeature.swift:109-126 | A no-op at index 0. Otherwise the chapter switch to index - 1, storing the old index as `currentChapterId`, as written. |
| BookPlayer.PlayerState.PreviousChapterButtonTappedCorrected | BookSummarizer/BookPlayerFeature.swift:109-126 | Corrected: the same switch, storing the new index as `currentChapterId`. The player receives the same commands. |
| BookPlayer.PlayerState.NextChapterButtonTapped | BookSummarizer/BookPlayerFeature.swift:146-164 | A no-op at the last chapter, and otherwise the chapter switch to index + 1. |
| BookPlayer.PlayerState.SkipBy | BookSummarizer/BookPlayerFeature.swift:128-143 | Without a player, nothing happens. Otherwise the player seeks 5 s back or 10 s forward from its own time, unclamped, and no state field changes. |
| BookPlayer.PlayerState.AssignArtwork | BookSummarizer/BookPlayerFeature.swift:173-177 | Artwork replaces the cover, and none leaves it. |
| BookPlayer.PlayerState.AssignChapters | BookSummarizer/BookPlayerFeature.swift:179-188 | A list replaces the chapters. With a chapter and a player, a new observer is registered and stored without removing the old one. |
| BookPlayer.PlayerState.InitAvPlayer | BookSummarizer/BookPlayerFeature.swift:189-197 | If the audio is found, a new paused player replaces the old one. Otherwise nothing changes. |
| BookPlayer.PlayerState.AssignProgress | BookSummarizer/BookPlayerFeature.swift:198-204 | Progress is set and nothing is sent to the player. |
| BookPlayer.PlayerState.Reduce | BookSummarizer/BookPlayerFeature.swift:75-206 | Any action changes the state as `Step` says, commands the player as `PlayerEffects` says, and returns `Effects`. The single-observer invariant is kept, except when chapters are assigned over a live observer. Creating a player leaves a replaced player untouched. |
| BookPlayer.PlayerState.ReceiveTimeNotification | BookSummarizer/BookPlayerView.swift:132-135 | The manager's progress is delivered as `.assignProgress` exactly when the index equals `currentChapterId`. Otherwise nothing changes. In both cases the manager's progress keeps its value and nothing is sent to the player. |

## Left out

- AVFoundation loading. Left out are `loadChapters`, `loadArtworkImage` and `imageFromItem`, including the outer loop over chapter locales and the error paths. The asset's answers are an `Assets` parameter, and the inner loop over metadata groups is `Chapters.ChaptersFromMetadata`.
- The AVPlayer itself is an abstract `Player` that records commands:
  - no CMTime timescale rounding;
  - no clamping of seeks to the asset;
  - no real timer cadence or threads;
  - no failure when removing an observer it does not know;
  - no advance of time during playback. `Player.time` changes only on a seek, and the sample time given to `TimeObserverFired` is a free parameter not tied to it. So `SkipBy` seeks relative to the last seek target, while the code's `player.currentTime()` moves on while playing.
- Floating point:
  - progress, times and seconds are reals;
  - `String(Double)` is modelled as sign, integer digits, "." and fraction digits (positional printing), without exponent notation or shortest-representation digits.
- `TimeCodec.ShowStringTime`, `TimeCodec.ShowsClock`, `TimeCodec.ShowsMinutes`, `TimeCodec.ShowsSeconds`, `TimeCodec.MinutesAlwaysParse` and `BookPlayer.CurrentTimeShowsClock` hold only where both s/60 and the seconds left after the whole minutes print positionally. Every whole number of seconds does. `String(Double)` prints magnitudes below 1e-4 in exponent form, and the characters before "." are then the mantissa's first digit.
  - For s = 0.0018310546875 (60 × 2^-15), s/60 prints as "3.0517578125e-05", so the code shows "3:-179" where the model shows "0:00".
  - For s = 60.000030517578125, the leftover 2^-15 prints in exponent form, so the code shows "1:03" where the model shows "1:00".
  - A quotient printed with one significant digit and no "." (such as "1e-05") leaves the minutes text empty, and the code takes the "" branch that `MinutesAlwaysParse` rules out for positional printing.
  - The position text meets such values when an observer sample falls within a few milliseconds of a chapter start, or just past a whole minute.
- `TimeCodec.ProgressToSeconds`: the NaN guard of `progressToCMTime` has no counterpart. Over the reals no NaN arises: 0 gives 0, and infinities do not exist.
- `Media.MediaManager.TimeObserverFired`: for a zero-length chapter the code stores and posts a non-finite progress. The model neither stores nor posts in that case.
- `NotificationCenter` posting and subscription, the `.run` effect machinery, and the `Bundle.main` lookup. The notification is the `ReceiveTimeNotification` call, effects are returned action lists, and the lookup is the `audioFound` flag.
- The cover is image bytes. Decoding to `UIImage` or `Image` is not modelled.
- The SwiftUI view beyond the progress guard is not part of this model: layout, the disabled state of the buttons, and `isToggled` with `CustomToggle`. The same goes for the colour palette and the app entry point.
- `setPlaybackSession` is unused audio-session configuration. The `NSCopying` conformance of the manager returns itself. Neither changes any state modelled here.

## Findings

| source | as written | input that shows it | evidently intended | confidence | as-written member | corrected member |
|---|---|---|---|---|---|---|
| BookSummarizer/BookPlayerFeature.swift:115-116 | `.previousChapterButtonTapped` sets `currentChapterId` to the index before decrementing it. `.nextChapterButtonTapped` sets it after incrementing. The screen's guard (BookPlayerView.swift:133) then finds index != `currentChapterId` after going back, and drops every progress update. As a result, the slider freezes and the auto-advance at progress 1.0 never fires until the next chapter change. | Two chapters: next, then previous. The index is 0 and `currentChapterId` is 1. | `currentChapterId` equals the new index, as in the next-chapter case. | not executed | BookPlayer.PreviousAsWrittenExample | BookPlayer.GateOpenAfterRun |
