/**
 * The book player feature: the state the player screen shows, the actions
 * it receives, and the reducer that applies each action to the state,
 * sends commands to the player and returns the actions its effect sends
 * back.
 *
 * `Snapshot` is the value of the state (with the media manager's
 * `currentChapterId`, which the screen compares against), `Step` says what
 * every action does to it as the reducer is written (`StepCorrected` is the
 * same with the previous-chapter step fixed), `Effects` which actions follow, and
 * `PlayerState.PlayerEffects` what the player and the observer bookkeeping
 * receive. `PlayerState` is the state itself, updated in place by
 * `Reduce`, which is proved to do exactly that.
 */
module BookPlayer {
  import opened Optional
  import opened Chapters
  import opened Media
  import TimeCodec

  /** Speeds are counted in quarters of normal speed: 4 is 1.0x, 2 is 0.5x, 8 is 2.0x. */
  const NormalSpeed := 4
  const MinSpeed := 2
  const MaxSpeed := 8

  /** `.playbackSpeedChanged`: a quarter faster, back to 0.5x once past 2.0x. */
  function NextSpeed(speed: int): (r: int)
    ensures speed < MaxSpeed ==> r == speed + 1
    ensures MaxSpeed <= speed ==> r == MinSpeed
    ensures MinSpeed <= speed <= MaxSpeed ==> MinSpeed <= r <= MaxSpeed
  {
    var faster := speed + 1;
    if faster > MaxSpeed then MinSpeed else faster
  }

  type ImageData = seq<bv8>

  /** The cover shown: the bundled book cover until artwork is assigned. */
  datatype Cover = BookCover | Artwork(image: ImageData)

  datatype Action =
    | PlaybackSpeedChanged
    | PlayPauseButtonTapped
    | ProgressChanged(value: real)
    | PreviousChapterButtonTapped
    | RewindButtonTapped
    | FastForwardButtonTapped
    | NextChapterButtonTapped
    | GetMetadata
    | AssignArtwork(image: Option<ImageData>)
    | AssignChapters(list: Option<seq<Chapter>>)
    | InitAvPlayer
    | AssignProgress(value: real)

  /** What the asset provider and the bundle lookup give back: artwork, chapters, and whether the audio file is found. */
  datatype Assets = Assets(artwork: Option<ImageData>, chapters: Option<seq<Chapter>>, audioFound: bool)

  const NoAssets := Assets(None, None, false)

  /** The state's value; `chapterId` is the media manager's `currentChapterId`. */
  datatype Snapshot = Snapshot(speed: int, isPlaying: bool, progress: real, index: nat,
                               chapters: seq<Chapter>, cover: Cover, chapterId: int)
  {
    /** The chapter at the current index, none when the index is past the end. */
    function CurrentChapter(): (c: Option<Chapter>)
      ensures c.Some? <==> index < |chapters|
      ensures c.Some? ==> c.value == chapters[index]
    {
      if |chapters| - 1 >= index then Some(chapters[index]) else None
    }

    function CurrentChapterTitle(): (title: string)
      ensures CurrentChapter().Some? ==> title == CurrentChapter().value.title
      ensures CurrentChapter().None? ==> title == ""
    {
      if !(|chapters| - 1 >= index) then ""
      else
        match CurrentChapter()
        case Some(c) => c.title
        case None => "Design is not how a thing looks, but how it works"
    }

    /** The position in the current chapter as "M:SS" (see `CurrentTimeShowsClock`). */
    function CurrentTimeString(): (text: string)
      ensures CurrentChapter().None? ==> text == "0:00"
      ensures CurrentChapter().Some? ==>
        text == TimeCodec.TimeText(TimeCodec.ProgressToSeconds(progress, CurrentChapter().value.duration as real))
    {
      match CurrentChapter()
      case Some(c) => TimeCodec.TimeText(TimeCodec.ProgressToSeconds(progress, c.duration as real))
      case None => "0:00"
    }

    /** The length of the current chapter as "M:SS" (see `DurationShowsClock`). */
    function ChapterDurationString(): (text: string)
      ensures CurrentChapter().None? ==> text == "0:00"
      ensures CurrentChapter().Some? ==> text == TimeCodec.TimeText(CurrentChapter().value.duration as real)
    {
      match CurrentChapter()
      case Some(c) => TimeCodec.TimeText(c.duration as real)
      case None => "0:00"
    }
  }

  /** The state a new player screen starts from. */
  const Initial := Snapshot(NormalSpeed, false, 0.0, 0, [], BookCover, 0)

  /** Moving to chapter `n` and storing `id` as `currentChapterId`; the chapter restarts. */
  function MoveTo(f: Snapshot, n: nat, id: int): (g: Snapshot)
    ensures g.index == n && g.chapterId == id && g.progress == 0.0
    ensures g.speed == f.speed && g.isPlaying == f.isPlaying && g.chapters == f.chapters && g.cover == f.cover
  {
    f.(index := n, chapterId := id, progress := 0.0)
  }

  /** Moving to chapter `n` with `currentChapterId` equal to it, as `.nextChapterButtonTapped` does. */
  function ToChapter(f: Snapshot, n: nat): Snapshot {
    MoveTo(f, n, n)
  }

  /** Whether `.nextChapterButtonTapped` moves: the index is before the last chapter. */
  predicate CanGoNext(f: Snapshot) {
    f.index < |f.chapters| - 1
  }

  /** Whether `.previousChapterButtonTapped` moves: the index is past the first chapter. */
  predicate CanGoPrevious(f: Snapshot) {
    f.index > 0
  }

  /**
   * `.previousChapterButtonTapped` as the code writes it: `currentChapterId`
   * is set before the index is decremented, so it keeps the old index, one
   * above the new one.
   */
  function PreviousChapterAsWritten(f: Snapshot): (g: Snapshot)
    ensures CanGoPrevious(f) ==> g.index == f.index - 1 && g.chapterId == g.index + 1 && g.progress == 0.0
    ensures !CanGoPrevious(f) ==> g == f
    ensures g.speed == f.speed && g.isPlaying == f.isPlaying && g.chapters == f.chapters && g.cover == f.cover
  {
    if CanGoPrevious(f) then MoveTo(f, f.index - 1, f.index) else f
  }

  /** `.previousChapterButtonTapped` as evidently intended: `currentChapterId` is the new index. */
  function PreviousChapterCorrected(f: Snapshot): (g: Snapshot)
    ensures CanGoPrevious(f) ==> g.index == f.index - 1 && g.chapterId == g.index && g.progress == 0.0
    ensures !CanGoPrevious(f) ==> g == f
    ensures g == PreviousChapterAsWritten(f).(chapterId := g.chapterId)
  {
    if CanGoPrevious(f) then ToChapter(f, f.index - 1) else f
  }

  /** What each action does to the state, as the reducer is written. */
  function Step(f: Snapshot, a: Action): (g: Snapshot)
    ensures g.index != f.index || g.chapterId != f.chapterId ==>
      a.NextChapterButtonTapped? || a.PreviousChapterButtonTapped?
    ensures g.chapters != f.chapters ==> a.AssignChapters?
    ensures g.speed != f.speed <==> a.PlaybackSpeedChanged? && NextSpeed(f.speed) != f.speed
    ensures g.isPlaying != f.isPlaying <==> a.PlayPauseButtonTapped?
    ensures g.cover != f.cover ==> a.AssignArtwork?
  {
    match a
    case PlaybackSpeedChanged => f.(speed := NextSpeed(f.speed))
    case PlayPauseButtonTapped => f.(isPlaying := !f.isPlaying)
    case ProgressChanged(p) => f.(progress := p)
    case PreviousChapterButtonTapped => PreviousChapterAsWritten(f)
    case RewindButtonTapped => f
    case FastForwardButtonTapped => f
    case NextChapterButtonTapped => if CanGoNext(f) then ToChapter(f, f.index + 1) else f
    case GetMetadata => f
    case AssignArtwork(image) => if image.Some? then f.(cover := Artwork(image.value)) else f
    case AssignChapters(list) => if list.Some? then f.(chapters := list.value) else f
    case InitAvPlayer => f
    case AssignProgress(p) => f.(progress := p)
  }

  /** `Step` with the previous-chapter step corrected; every other action is unchanged. */
  function StepCorrected(f: Snapshot, a: Action): (g: Snapshot)
    ensures !a.PreviousChapterButtonTapped? ==> g == Step(f, a)
    ensures g == Step(f, a).(chapterId := g.chapterId)
  {
    if a.PreviousChapterButtonTapped? then PreviousChapterCorrected(f) else Step(f, a)
  }

  /** The actions an action's effect sends back, in order. */
  function Effects(a: Action, assets: Assets): (effects: seq<Action>)
    ensures effects != [] <==> a.GetMetadata? || (a.AssignProgress? && 1.0 <= a.value)
    ensures a.AssignProgress? && 1.0 <= a.value ==> effects == [NextChapterButtonTapped]
    ensures a.GetMetadata? ==> effects == [AssignArtwork(assets.artwork), AssignChapters(assets.chapters)]
  {
    match a
    case GetMetadata => [AssignArtwork(assets.artwork), AssignChapters(assets.chapters)]
    case AssignProgress(p) => if p >= 1.0 then [NextChapterButtonTapped] else []
    case _ => []
  }

  /** The state after a sequence of actions. */
  function Run(f: Snapshot, actions: seq<Action>): Snapshot
    decreases |actions|
  {
    if actions == [] then f else Run(Step(f, actions[0]), actions[1..])
  }

  /** The state after a sequence of actions, with the corrected previous-chapter step. */
  function RunCorrected(f: Snapshot, actions: seq<Action>): Snapshot
    decreases |actions|
  {
    if actions == [] then f else RunCorrected(StepCorrected(f, actions[0]), actions[1..])
  }

  /** `n` copies of `a`. */
  function Repeat(a: Action, n: nat): (r: seq<Action>)
    ensures |r| == n
    ensures forall i | 0 <= i < n :: r[i] == a
  {
    if n == 0 then [] else [a] + Repeat(a, n - 1)
  }

  /** The `n`-th speed after `speed`. */
  function SpeedAfter(speed: int, n: nat): int
    decreases n
  {
    if n == 0 then speed else SpeedAfter(NextSpeed(speed), n - 1)
  }

  // ---------------------------------------------------------------------
  // Properties of the state machine
  // ---------------------------------------------------------------------

  /** From 1.0x, seven speed changes give 1.25, 1.5, 1.75, 2.0, 0.5, 0.75 and 1.0 again. */
  lemma SpeedCycleFromNormal()
    ensures forall k | 1 <= k <= 7 ::
      Run(Initial, Repeat(PlaybackSpeedChanged, k)).speed == [5, 6, 7, 8, 2, 3, 4][k - 1]
  {
    forall k | 1 <= k <= 7
      ensures Run(Initial, Repeat(PlaybackSpeedChanged, k)).speed == [5, 6, 7, 8, 2, 3, 4][k - 1]
    {
      RepeatedSpeedChanges(Initial, k);
      if k == 1 { assert SpeedAfter(4, 1) == 5; }
      else if k == 2 { assert SpeedAfter(4, 2) == 6; }
      else if k == 3 { assert SpeedAfter(4, 3) == 7; }
      else if k == 4 { assert SpeedAfter(4, 4) == 8; }
      else if k == 5 { assert SpeedAfter(4, 5) == 2; }
      else if k == 6 { assert SpeedAfter(4, 6) == 3; }
      else { assert SpeedAfter(4, 7) == 4; }
    }
  }

  /** Speed changes touch only the speed. */
  lemma {:induction false} RepeatedSpeedChanges(f: Snapshot, n: nat)
    ensures Run(f, Repeat(PlaybackSpeedChanged, n)) == f.(speed := SpeedAfter(f.speed, n))
    decreases n
  {
    if n > 0 {
      var actions := Repeat(PlaybackSpeedChanged, n);
      assert actions[1..] == Repeat(PlaybackSpeedChanged, n - 1);
      RepeatedSpeedChanges(Step(f, PlaybackSpeedChanged), n - 1);
    }
  }

  /** Every speed from 0.5x to 2.0x comes back after exactly seven changes. */
  lemma SpeedPeriod(f: Snapshot)
    requires MinSpeed <= f.speed <= MaxSpeed
    ensures Run(f, Repeat(PlaybackSpeedChanged, 7)) == f
  {
    RepeatedSpeedChanges(f, 7);
    var s := f.speed;
    if s == 2 { assert SpeedAfter(2, 7) == 2; }
    else if s == 3 { assert SpeedAfter(3, 7) == 3; }
    else if s == 4 { assert SpeedAfter(4, 7) == 4; }
    else if s == 5 { assert SpeedAfter(5, 7) == 5; }
    else if s == 6 { assert SpeedAfter(6, 7) == 6; }
    else if s == 7 { assert SpeedAfter(7, 7) == 7; }
    else { assert SpeedAfter(8, 7) == 8; }
  }

  /** Two taps on play/pause give back the original state. */
  lemma PlayPauseTwice(f: Snapshot)
    ensures Step(f, PlayPauseButtonTapped).isPlaying == !f.isPlaying
    ensures Run(f, [PlayPauseButtonTapped, PlayPauseButtonTapped]) == f
  {
    assert [PlayPauseButtonTapped, PlayPauseButtonTapped][1..] == [PlayPauseButtonTapped];
  }

  /** Next and previous do nothing at the ends of the chapter list (an empty list included). */
  lemma NavigationStopsAtEnds(f: Snapshot)
    ensures f.index >= |f.chapters| - 1 ==> Step(f, NextChapterButtonTapped) == f
    ensures f.index == 0 ==> Step(f, PreviousChapterButtonTapped) == f
  {
  }

  /**
   * Next moves one chapter forward and previous one back; both restart the
   * chapter. Next stores the new index as `currentChapterId`; previous, as
   * written, stores the index it leaves, one above the new one.
   */
  lemma NavigationMovesByOne(f: Snapshot)
    ensures CanGoNext(f) ==>
      var g := Step(f, NextChapterButtonTapped);
      g.index == f.index + 1 && g.progress == 0.0 && g.chapterId == g.index && g.chapters == f.chapters
    ensures CanGoPrevious(f) ==>
      var g := Step(f, PreviousChapterButtonTapped);
      g.index == f.index - 1 && g.progress == 0.0 && g.chapterId == f.index == g.index + 1 && g.chapters == f.chapters
    ensures CanGoPrevious(f) ==>
      var g := StepCorrected(f, PreviousChapterButtonTapped);
      g.index == f.index - 1 && g.progress == 0.0 && g.chapterId == g.index && g.chapters == f.chapters
  {
  }

  /**
   * Going forward and then back returns to the starting chapter, at its
   * beginning; as written, `currentChapterId` is left one above it.
   */
  lemma NextThenPrevious(f: Snapshot)
    requires CanGoNext(f)
    ensures Step(Step(f, NextChapterButtonTapped), PreviousChapterButtonTapped) == MoveTo(f, f.index, f.index + 1)
  {
    assert Step(f, NextChapterButtonTapped) == ToChapter(f, f.index + 1);
  }

  /** With the corrected previous step, forward and back returns to the starting chapter with the gate open. */
  lemma NextThenPreviousCorrected(f: Snapshot)
    requires CanGoNext(f)
    ensures StepCorrected(StepCorrected(f, NextChapterButtonTapped), PreviousChapterButtonTapped) == ToChapter(f, f.index)
  {
    assert StepCorrected(f, NextChapterButtonTapped) == ToChapter(f, f.index + 1);
  }

  /**
   * An index inside the chapter list stays inside it under every action but
   * the one that replaces the list.
   */
  lemma IndexStaysInRange(f: Snapshot, a: Action)
    requires f.index < |f.chapters|
    requires !(a.AssignChapters? && a.list.Some?)
    ensures Step(f, a).index < |Step(f, a).chapters|
    ensures Step(f, a).CurrentChapter().Some?
  {
  }

  /**
   * Assigning a list no longer than the index leaves the index where it is,
   * with no current chapter: an empty title and "0:00" for both times.
   */
  lemma ShorterListHidesChapter(f: Snapshot, list: seq<Chapter>)
    requires |list| <= f.index
    ensures var g := Step(f, AssignChapters(Some(list)));
      && g.index == f.index && g.chapters == list
      && g.CurrentChapter().None?
      && g.CurrentChapterTitle() == ""
      && g.CurrentTimeString() == "0:00" && g.ChapterDurationString() == "0:00"
  {
  }

  /** Assigning no list keeps the chapters; no assignment moves the index. */
  lemma AssignChaptersKeepsIndex(f: Snapshot, list: Option<seq<Chapter>>)
    ensures Step(f, AssignChapters(list)).index == f.index
    ensures list.None? ==> Step(f, AssignChapters(list)) == f
  {
  }

  /**
   * The time notification sends `.assignProgress` only while the index equals
   * `currentChapterId`. With the corrected previous step every action keeps
   * the two equal, so no progress update is ever dropped.
   */
  lemma GateStaysOpen(f: Snapshot, a: Action)
    requires f.chapterId == f.index
    ensures StepCorrected(f, a).chapterId == StepCorrected(f, a).index
  {
  }

  lemma {:induction false} GateOpenAfterRun(f: Snapshot, actions: seq<Action>)
    requires f.chapterId == f.index
    ensures RunCorrected(f, actions).chapterId == RunCorrected(f, actions).index
    decreases |actions|
  {
    if actions != [] {
      GateStaysOpen(f, actions[0]);
      GateOpenAfterRun(StepCorrected(f, actions[0]), actions[1..]);
    }
  }

  /**
   * As written, every action keeps `currentChapterId` either equal to the
   * index (the gate is open) or one above it (the gate is closed); only the
   * previous step closes the gate and only the next step opens it again.
   */
  lemma GateOffByAtMostOne(f: Snapshot, a: Action)
    requires f.chapterId == f.index || f.chapterId == f.index + 1
    ensures var g := Step(f, a);
      && (g.chapterId == g.index || g.chapterId == g.index + 1)
      && (f.chapterId == f.index && g.chapterId != g.index ==> a.PreviousChapterButtonTapped?)
      && (f.chapterId != f.index && g.chapterId == g.index ==> a.NextChapterButtonTapped?)
  {
  }

  lemma {:induction false} GateOffByAtMostOneAfterRun(f: Snapshot, actions: seq<Action>)
    requires f.chapterId == f.index || f.chapterId == f.index + 1
    ensures Run(f, actions).chapterId == Run(f, actions).index
         || Run(f, actions).chapterId == Run(f, actions).index + 1
    decreases |actions|
  {
    if actions != [] {
      GateOffByAtMostOne(f, actions[0]);
      GateOffByAtMostOneAfterRun(Step(f, actions[0]), actions[1..]);
    }
  }

  /**
   * From the initial state, as written, the speed stays between 0.5x and
   * 2.0x and `currentChapterId` is the index or one above it; with the
   * corrected previous step the gate stays open.
   */
  lemma {:induction false} ReachableInvariants(actions: seq<Action>)
    ensures MinSpeed <= Run(Initial, actions).speed <= MaxSpeed
    ensures Run(Initial, actions).chapterId == Run(Initial, actions).index
         || Run(Initial, actions).chapterId == Run(Initial, actions).index + 1
    ensures RunCorrected(Initial, actions).chapterId == RunCorrected(Initial, actions).index
  {
    SpeedBoundsAfterRun(Initial, actions);
    GateOffByAtMostOneAfterRun(Initial, actions);
    GateOpenAfterRun(Initial, actions);
  }

  lemma {:induction false} SpeedBoundsAfterRun(f: Snapshot, actions: seq<Action>)
    requires MinSpeed <= f.speed <= MaxSpeed
    ensures MinSpeed <= Run(f, actions).speed <= MaxSpeed
    decreases |actions|
  {
    if actions != [] {
      SpeedBoundsAfterRun(Step(f, actions[0]), actions[1..]);
    }
  }

  /**
   * The previous step as written closes an open gate: `currentChapterId` is
   * left one above the new index, so every progress update is dropped until
   * the next step. The corrected step differs from it only there.
   */
  lemma PreviousAsWrittenClosesGate(f: Snapshot)
    requires CanGoPrevious(f) && f.chapterId == f.index
    ensures var g := Step(f, PreviousChapterButtonTapped);
      g.index == f.index - 1 && g.chapterId == g.index + 1 && g.chapterId != g.index
    ensures StepCorrected(f, PreviousChapterButtonTapped) == Step(f, PreviousChapterButtonTapped).(chapterId := f.index - 1)
  {
  }

  /**
   * Concretely: load two chapters, go forward, go back. As written the index
   * is 0 with `currentChapterId` 1, a closed gate; corrected, both are 0.
   */
  lemma PreviousAsWrittenExample(first: Chapter, second: Chapter)
    ensures var actions := [AssignChapters(Some([first, second])), NextChapterButtonTapped, PreviousChapterButtonTapped];
      && Run(Initial, actions).index == 0 && Run(Initial, actions).chapterId == 1
      && RunCorrected(Initial, actions).index == 0 && RunCorrected(Initial, actions).chapterId == 0
  {
    var actions := [AssignChapters(Some([first, second])), NextChapterButtonTapped, PreviousChapterButtonTapped];
    var loaded := Initial.(chapters := [first, second]);
    var forward := ToChapter(loaded, 1);
    assert actions[1..] == [NextChapterButtonTapped, PreviousChapterButtonTapped];
    assert actions[1..][1..] == [PreviousChapterButtonTapped] && [PreviousChapterButtonTapped][1..] == [];
    assert Run(Initial, actions) == Run(loaded, actions[1..]) == Run(forward, actions[1..][1..]);
    assert Run(forward, actions[1..][1..]) == Run(PreviousChapterAsWritten(forward), []);
    assert RunCorrected(Initial, actions) == RunCorrected(loaded, actions[1..]) == RunCorrected(forward, actions[1..][1..]);
    assert RunCorrected(forward, actions[1..][1..]) == RunCorrected(PreviousChapterCorrected(forward), []);
  }

  /**
   * A progress of 1.0 or more sends `.nextChapterButtonTapped`; before the
   * last chapter that moves to the next chapter at its start.
   */
  lemma AutoAdvance(f: Snapshot, p: real, assets: Assets)
    requires 1.0 <= p && CanGoNext(f)
    ensures Effects(AssignProgress(p), assets) == [NextChapterButtonTapped]
    ensures Run(f, [AssignProgress(p)] + Effects(AssignProgress(p), assets)) == ToChapter(f, f.index + 1)
  {
    var actions := [AssignProgress(p)] + Effects(AssignProgress(p), assets);
    assert actions == [AssignProgress(p), NextChapterButtonTapped];
    var g := Step(f, AssignProgress(p));
    assert actions[1..] == [NextChapterButtonTapped];
    assert Run(f, actions) == Run(g, [NextChapterButtonTapped]);
    assert [NextChapterButtonTapped][1..] == [];
    assert Run(g, [NextChapterButtonTapped]) == Run(Step(g, NextChapterButtonTapped), []);
  }

  /** Effects never chain: the actions an effect sends send nothing themselves. */
  lemma EffectsSettle(a: Action, assets: Assets, later: Assets)
    ensures forall b | b in Effects(a, assets) :: Effects(b, later) == []
  {
  }

  /** The screen starts paused at 1.0x, with no chapters: an empty title and "0:00" for both times. */
  lemma InitialIsPaused()
    ensures !Initial.isPlaying && Initial.speed == NormalSpeed && Initial.CurrentChapter().None?
    ensures Initial.CurrentTimeString() == "0:00" && Initial.ChapterDurationString() == "0:00"
    ensures Initial.CurrentChapterTitle() == ""
  {
  }

  /**
   * The position string is the clock text of the whole seconds at `progress`
   * of the chapter's length (`ProgressToSeconds` is their product); with no
   * chapter it is the clock text of 0.
   */
  lemma CurrentTimeShowsClock(f: Snapshot)
    ensures f.CurrentChapter().None? ==> f.CurrentTimeString() == TimeCodec.Clock(0)
    ensures f.CurrentChapter().Some? && 0.0 <= f.progress && 0 <= f.CurrentChapter().value.duration ==>
      f.CurrentTimeString() == TimeCodec.Clock(TimeCodec.ProgressToSeconds(f.progress, f.CurrentChapter().value.duration as real).Floor)
  {
    if f.CurrentChapter().None? {
      TimeCodec.ClockExamples();
    } else if 0.0 <= f.progress && 0 <= f.CurrentChapter().value.duration {
      TimeCodec.ShowsClock(TimeCodec.ProgressToSeconds(f.progress, f.CurrentChapter().value.duration as real));
    }
  }

  /** The length string is the clock text of the chapter's length; with no chapter it is the clock text of 0. */
  lemma DurationShowsClock(f: Snapshot)
    ensures f.CurrentChapter().None? ==> f.ChapterDurationString() == TimeCodec.Clock(0)
    ensures f.CurrentChapter().Some? && 0 <= f.CurrentChapter().value.duration ==>
      f.ChapterDurationString() == TimeCodec.Clock(f.CurrentChapter().value.duration)
  {
    TimeCodec.ClockExamples();
    if f.CurrentChapter().Some? && 0 <= f.CurrentChapter().value.duration {
      var length := f.CurrentChapter().value.duration;
      TimeCodec.ShowsClock(length as real);
      assert (length as real).Floor == length;
    }
  }

  /** A zero-length chapter shows "0:00" for its length, as the missing chapter does. */
  lemma ZeroLengthChapterShowsZero(f: Snapshot)
    requires f.CurrentChapter().Some? && f.CurrentChapter().value.duration == 0
    ensures f.ChapterDurationString() == "0:00"
  {
    DurationShowsClock(f);
    TimeCodec.ClockExamples();
  }

  // ---------------------------------------------------------------------
  // Player commands
  // ---------------------------------------------------------------------

  /** The player was told to seek to `t` and nothing else. */
  twostate predicate SoughtTo(p: Player, t: real)
    reads p
  {
    && p.time == t && p.rate == old(p.rate) && p.observers == old(p.observers)
    && p.log == old(p.log) + [Command.Seek(t)]
  }

  /** The player was given the rate `speed` (and paused again when not playing), or just paused. */
  twostate predicate RateCommands(p: Player, speed: int, playing: bool, setRate: bool)
    reads p
  {
    && p.rate == (if playing then speed else 0)
    && p.time == old(p.time) && p.observers == old(p.observers)
    && p.log == old(p.log) + (if setRate then [Command.SetRate(speed)] else [])
                           + (if playing then [] else [Command.Pause])
  }

  /** The state of the player screen, updated in place by the reducer. */
  class PlayerState {
    var speed: int
    var isPlaying: bool
    var progress: real
    var currentChapterNumber: nat
    var chapters: seq<Chapter>
    var cover: Cover
    var player: Player?

    constructor ()
      ensures speed == NormalSpeed && !isPlaying && progress == 0.0 && currentChapterNumber == 0
      ensures chapters == [] && cover == BookCover && player == null
    {
      speed, isPlaying, progress, currentChapterNumber := NormalSpeed, false, 0.0, 0;
      chapters, cover, player := [], BookCover, null;
    }

    function Value(mm: MediaManager): Snapshot
      reads this, mm
    {
      Snapshot(speed, isPlaying, progress, currentChapterNumber, chapters, cover, mm.currentChapterId)
    }

    /** At most one observer is registered with the player, and it is the stored one. */
    ghost predicate SingleObserver(mm: MediaManager)
      reads this, mm, player
    {
      player != null ==> player.observers <= Stored(mm.playerTimeObserver)
    }

    /** Nothing was sent to the player and the stored observer is the same. */
    twostate predicate Quiet(mm: MediaManager)
      reads this, mm, player
    {
      && player == old(player)
      && mm.playerTimeObserver == old(mm.playerTimeObserver)
      && (player != null ==> unchanged(player))
    }

    /**
     * Leaving a chapter: the stored observer is unregistered (it stays
     * stored); if the new index has a chapter, a new observer for it is
     * registered and stored and the player seeks to the chapter's start.
     */
    twostate predicate Switched(mm: MediaManager)
      reads this, mm, player
    {
      && player == old(player)
      && (player == null ==> mm.playerTimeObserver == old(mm.playerTimeObserver))
      && (player != null ==>
            var chapter := Value(mm).CurrentChapter();
            var removed := old(mm.playerTimeObserver);
            && player.rate == old(player.rate)
            && (chapter.None? ==>
                  && mm.playerTimeObserver == removed
                  && player.observers == old(player.observers) - Stored(removed)
                  && player.time == old(player.time)
                  && player.log == old(player.log) + Removal(removed))
            && (chapter.Some? ==>
                  && mm.playerTimeObserver != null && fresh(mm.playerTimeObserver)
                  && mm.playerTimeObserver.chapter == chapter.value
                  && player.observers == old(player.observers) - Stored(removed) + {mm.playerTimeObserver}
                  && player.time == chapter.value.start
                  && player.log == old(player.log) + Removal(removed)
                                   + [AddTimeObserver(mm.playerTimeObserver), Command.Seek(chapter.value.start)]))
    }

    /** What the player and the stored observer receive for each action. */
    twostate predicate PlayerEffects(mm: MediaManager, a: Action, audioFound: bool)
      reads this, mm, player
    {
      match a
      case PlaybackSpeedChanged =>
        && player == old(player) && mm.playerTimeObserver == old(mm.playerTimeObserver)
        && (player != null ==> RateCommands(player, speed, isPlaying, true))
      case PlayPauseButtonTapped =>
        && player == old(player) && mm.playerTimeObserver == old(mm.playerTimeObserver)
        && (player != null ==> RateCommands(player, speed, isPlaying, isPlaying))
      case ProgressChanged(p) =>
        var chapter := Value(mm).CurrentChapter();
        if player != null && chapter.Some? then
          && player == old(player) && mm.playerTimeObserver == old(mm.playerTimeObserver)
          && SoughtTo(player, chapter.value.start + TimeCodec.ProgressToSeconds(p, chapter.value.duration as real))
        else Quiet(mm)
      case PreviousChapterButtonTapped =>
        if CanGoPrevious(old(Value(mm))) then Switched(mm) else Quiet(mm)
      case NextChapterButtonTapped =>
        if CanGoNext(old(Value(mm))) then Switched(mm) else Quiet(mm)
      case RewindButtonTapped =>
        if player != null then
          && player == old(player) && mm.playerTimeObserver == old(mm.playerTimeObserver)
          && SoughtTo(player, old(player.time) - 5.0)
        else Quiet(mm)
      case FastForwardButtonTapped =>
        if player != null then
          && player == old(player) && mm.playerTimeObserver == old(mm.playerTimeObserver)
          && SoughtTo(player, old(player.time) + 10.0)
        else Quiet(mm)
      case AssignChapters(_) =>
        var chapter := Value(mm).CurrentChapter();
        if player != null && chapter.Some? then
          && player == old(player)
          && mm.playerTimeObserver != null && fresh(mm.playerTimeObserver)
          && mm.playerTimeObserver.chapter == chapter.value
          && player.observers == old(player.observers) + {mm.playerTimeObserver}
          && player.rate == old(player.rate) && player.time == old(player.time)
          && player.log == old(player.log) + [AddTimeObserver(mm.playerTimeObserver)]
        else Quiet(mm)
      case InitAvPlayer =>
        if audioFound then
          && player != null && fresh(player)
          && player.rate == 0 && player.time == 0.0 && player.observers == {} && player.log == [Command.Pause]
          && mm.playerTimeObserver == old(mm.playerTimeObserver)
        else Quiet(mm)
      case _ => Quiet(mm)
    }

    method PlaybackSpeedChanged(mm: MediaManager)
      modifies this, player
      ensures Value(mm) == Step(old(Value(mm)), Action.PlaybackSpeedChanged)
      ensures PlayerEffects(mm, Action.PlaybackSpeedChanged, false)
    {
      speed := NextSpeed(speed);
      var wasPlaying := isPlaying;
      if player != null {
        player.SetRate(speed);
        if !wasPlaying {
          player.Pause();
        }
      }
    }

    method PlayPauseButtonTapped(mm: MediaManager)
      modifies this, player
      ensures Value(mm) == Step(old(Value(mm)), Action.PlayPauseButtonTapped)
      ensures PlayerEffects(mm, Action.PlayPauseButtonTapped, false)
    {
      isPlaying := !isPlaying;
      if player != null {
        if isPlaying {
          player.SetRate(speed);
        } else {
          player.Pause();
        }
      }
    }

    method ProgressChanged(mm: MediaManager, newProgress: real)
      modifies this, player
      ensures Value(mm) == Step(old(Value(mm)), Action.ProgressChanged(newProgress))
      ensures PlayerEffects(mm, Action.ProgressChanged(newProgress), false)
    {
      progress := newProgress;
      var chapter := Value(mm).CurrentChapter();
      if chapter.Some? && player != null {
        var offset := TimeCodec.ProgressToSeconds(newProgress, chapter.value.duration as real);
        player.Seek(chapter.value.start + offset);
      }
    }

    /**
     * The common part of next and previous: leave the current chapter for
     * chapter `target`, storing `id` as `currentChapterId`.
     */
    method GoToChapter(mm: MediaManager, target: nat, id: int)
      modifies this, mm, player
      ensures Value(mm) == MoveTo(old(Value(mm)), target, id)
      ensures Switched(mm)
      ensures mm.currentProgress == old(mm.currentProgress)
    {
      if player != null {
        mm.RemoveCurrentObserver(player);
      }
      progress := 0.0;
      mm.currentChapterId := id;
      currentChapterNumber := target;
      var chapter := Value(mm).CurrentChapter();
      if chapter.Some? && player != null {
        mm.SetTimeObserver(chapter.value, player);
      }
      if chapter.Some? && player != null {
        player.Seek(chapter.value.start);
      }
    }

    method PreviousChapterButtonTapped(mm: MediaManager)
      modifies this, mm, player
      ensures Value(mm) == Step(old(Value(mm)), Action.PreviousChapterButtonTapped)
      ensures PlayerEffects(mm, Action.PreviousChapterButtonTapped, false)
      ensures mm.currentProgress == old(mm.currentProgress)
    {
      if currentChapterNumber > 0 {
        GoToChapter(mm, currentChapterNumber - 1, currentChapterNumber);
      }
    }

    /** The previous-chapter step as evidently intended: `currentChapterId` becomes the new index. */
    method PreviousChapterButtonTappedCorrected(mm: MediaManager)
      modifies this, mm, player
      ensures Value(mm) == StepCorrected(old(Value(mm)), Action.PreviousChapterButtonTapped)
      ensures PlayerEffects(mm, Action.PreviousChapterButtonTapped, false)
      ensures mm.currentProgress == old(mm.currentProgress)
    {
      if currentChapterNumber > 0 {
        GoToChapter(mm, currentChapterNumber - 1, currentChapterNumber - 1);
      }
    }

    method NextChapterButtonTapped(mm: MediaManager)
      modifies this, mm, player
      ensures Value(mm) == Step(old(Value(mm)), Action.NextChapterButtonTapped)
      ensures PlayerEffects(mm, Action.NextChapterButtonTapped, false)
      ensures mm.currentProgress == old(mm.currentProgress)
    {
      if currentChapterNumber < |chapters| - 1 {
        GoToChapter(mm, currentChapterNumber + 1, currentChapterNumber + 1);
      }
    }

    /** Rewind (-5 s) and fast forward (+10 s): a seek relative to the player's time, not clamped. */
    method SkipBy(mm: MediaManager, a: Action)
      requires a.RewindButtonTapped? || a.FastForwardButtonTapped?
      modifies player
      ensures Value(mm) == Step(old(Value(mm)), a)
      ensures PlayerEffects(mm, a, false)
    {
      var delta := if a.RewindButtonTapped? then -5.0 else 10.0;
      if player != null {
        var currentTime := player.time;
        player.Seek(currentTime + delta);
      }
    }

    method AssignArtwork(mm: MediaManager, image: Option<ImageData>)
      modifies this
      ensures Value(mm) == Step(old(Value(mm)), Action.AssignArtwork(image))
      ensures PlayerEffects(mm, Action.AssignArtwork(image), false)
    {
      if image.Some? {
        cover := Artwork(image.value);
      }
    }

    method AssignChapters(mm: MediaManager, list: Option<seq<Chapter>>)
      modifies this, mm, player
      ensures Value(mm) == Step(old(Value(mm)), Action.AssignChapters(list))
      ensures PlayerEffects(mm, Action.AssignChapters(list), false)
      ensures mm.currentProgress == old(mm.currentProgress)
    {
      if list.Some? {
        chapters := list.value;
      }
      var chapter := Value(mm).CurrentChapter();
      if chapter.Some? && player != null {
        mm.SetTimeObserver(chapter.value, player);
      }
    }

    /** Create a player for the bundled audio, if it is found, and pause it. */
    method InitAvPlayer(mm: MediaManager, audioFound: bool)
      modifies this
      ensures Value(mm) == Step(old(Value(mm)), Action.InitAvPlayer)
      ensures PlayerEffects(mm, Action.InitAvPlayer, audioFound)
    {
      if audioFound {
        var created := new Player();
        player := created;
        created.Pause();
      }
    }

    method AssignProgress(mm: MediaManager, newProgress: real)
      modifies this
      ensures Value(mm) == Step(old(Value(mm)), Action.AssignProgress(newProgress))
      ensures PlayerEffects(mm, Action.AssignProgress(newProgress), false)
    {
      progress := newProgress;
    }

    /** `reduce(into:action:)`: apply `action` in place and return the actions its effect sends. */
    method Reduce(mm: MediaManager, action: Action, assets: Assets) returns (effects: seq<Action>)
      modifies this, mm, player
      ensures Value(mm) == Step(old(Value(mm)), action)
      ensures PlayerEffects(mm, action, assets.audioFound)
      ensures mm.currentProgress == old(mm.currentProgress)
      ensures effects == Effects(action, assets)
      ensures action.InitAvPlayer? && old(player) != null ==> unchanged(old(player))
      ensures old(SingleObserver(mm)) && (action.AssignChapters? ==> old(player == null || player.observers == {}))
              ==> SingleObserver(mm)
    {
      effects := Effects(action, assets);
      match action
      case PlaybackSpeedChanged => PlaybackSpeedChanged(mm);
      case PlayPauseButtonTapped => PlayPauseButtonTapped(mm);
      case ProgressChanged(p) => ProgressChanged(mm, p);
      case PreviousChapterButtonTapped => PreviousChapterButtonTapped(mm);
      case RewindButtonTapped => SkipBy(mm, action);
      case FastForwardButtonTapped => SkipBy(mm, action);
      case NextChapterButtonTapped => NextChapterButtonTapped(mm);
      case GetMetadata =>
      case AssignArtwork(image) => AssignArtwork(mm, image);
      case AssignChapters(list) => AssignChapters(mm, list);
      case InitAvPlayer => InitAvPlayer(mm, assets.audioFound);
      case AssignProgress(p) => AssignProgress(mm, p);
    }

    /**
     * The screen's handler of the time notification: it sends
     * `.assignProgress` with the manager's progress only while the index
     * equals `currentChapterId`.
     */
    method ReceiveTimeNotification(mm: MediaManager) returns (delivered: bool, effects: seq<Action>)
      modifies this, mm, player
      ensures delivered <==> old(currentChapterNumber == mm.currentChapterId)
      ensures delivered ==> Value(mm) == Step(old(Value(mm)), Action.AssignProgress(old(mm.currentProgress)))
      ensures delivered ==> effects == Effects(Action.AssignProgress(old(mm.currentProgress)), NoAssets)
      ensures !delivered ==> Value(mm) == old(Value(mm)) && effects == []
      ensures mm.currentProgress == old(mm.currentProgress)
      ensures Quiet(mm)
    {
      delivered := currentChapterNumber == mm.currentChapterId;
      if delivered {
        effects := Reduce(mm, Action.AssignProgress(mm.currentProgress), NoAssets);
      } else {
        effects := [];
      }
    }
  }
}
