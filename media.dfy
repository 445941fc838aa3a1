/**
 * The playback engine as the reducer sees it, and the bookkeeping of the
 * media manager singleton.
 *
 * `Player` stands for the AVPlayer: it keeps its rate (in quarters of
 * normal speed, 0 when paused), its current time, the periodic time
 * observers registered with it, and a log of every command it received.
 * An `Observer` is the opaque token `addPeriodicTimeObserver` returns; it
 * remembers the chapter its callback captured.
 */
module Media {
  import opened Optional
  import opened Chapters

  /** A registered periodic time observer and the chapter its callback captured. */
  class Observer {
    const chapter: Chapter

    constructor (chapter: Chapter)
      ensures this.chapter == chapter
    {
      this.chapter := chapter;
    }
  }

  /** The commands the player receives, in the order it receives them. */
  datatype Command =
    | SetRate(quarters: int)
    | Pause
    | Seek(seconds: real)
    | AddTimeObserver(observer: Observer)
    | RemoveTimeObserver(observer: Observer)

  class Player {
    var rate: int
    var time: real
    var observers: set<Observer>
    var log: seq<Command>

    /** A new player is paused at the start, with no observers. */
    constructor ()
      ensures rate == 0 && time == 0.0 && observers == {} && log == []
    {
      rate, time, observers, log := 0, 0.0, {}, [];
    }

    method SetRate(quarters: int)
      modifies this
      ensures rate == quarters
      ensures time == old(time) && observers == old(observers)
      ensures log == old(log) + [Command.SetRate(quarters)]
    {
      rate := quarters;
      log := log + [Command.SetRate(quarters)];
    }

    /** Pausing is setting the rate to 0. */
    method Pause()
      modifies this
      ensures rate == 0
      ensures time == old(time) && observers == old(observers)
      ensures log == old(log) + [Command.Pause]
    {
      rate := 0;
      log := log + [Command.Pause];
    }

    method Seek(seconds: real)
      modifies this
      ensures time == seconds
      ensures rate == old(rate) && observers == old(observers)
      ensures log == old(log) + [Command.Seek(seconds)]
    {
      time := seconds;
      log := log + [Command.Seek(seconds)];
    }

    method AddPeriodicTimeObserver(chapter: Chapter) returns (observer: Observer)
      modifies this
      ensures fresh(observer) && observer.chapter == chapter
      ensures observers == old(observers) + {observer}
      ensures rate == old(rate) && time == old(time)
      ensures log == old(log) + [AddTimeObserver(observer)]
    {
      observer := new Observer(chapter);
      observers := observers + {observer};
      log := log + [AddTimeObserver(observer)];
    }

    method RemoveTimeObserver(observer: Observer)
      modifies this
      ensures observers == old(observers) - {observer}
      ensures rate == old(rate) && time == old(time)
      ensures log == old(log) + [Command.RemoveTimeObserver(observer)]
    {
      observers := observers - {observer};
      log := log + [Command.RemoveTimeObserver(observer)];
    }
  }

  /**
   * Progress the time-observer callback computes for a sample time:
   * `100 / (duration / (time - start)) * 0.01`, which is the chapter-relative
   * time over the chapter's length. For a chapter of length 0 the quotient
   * is not a finite number; that case gives `None`.
   */
  function ObservedProgress(chapter: Chapter, sampleTime: real): (p: Option<real>)
    ensures chapter.duration != 0 <==> p.Some?
    ensures p.Some? ==> p.value * chapter.duration as real == sampleTime - chapter.start
    ensures p.Some? && 0 < chapter.duration && chapter.start <= sampleTime <= chapter.start + chapter.duration as real
            ==> 0.0 <= p.value <= 1.0
  {
    if chapter.duration == 0 then None
    else Some((sampleTime - chapter.start) / chapter.duration as real)
  }

  /** Sets of observers of size at most one: nothing, or the given one. */
  function Stored(observer: Observer?): set<Observer> {
    if observer == null then {} else {observer}
  }

  /** The commands `removeCurrentObserver` sends for a stored observer. */
  function Removal(observer: Observer?): seq<Command> {
    if observer == null then [] else [RemoveTimeObserver(observer)]
  }

  /** The `MediaManager.shared` singleton. */
  class MediaManager {
    var currentProgress: real
    var currentChapterId: int
    var playerTimeObserver: Observer?

    constructor ()
      ensures currentProgress == 0.0 && currentChapterId == 0 && playerTimeObserver == null
    {
      currentProgress, currentChapterId, playerTimeObserver := 0.0, 0, null;
    }

    /** Unregisters the stored observer, if any, but leaves it stored. */
    method RemoveCurrentObserver(player: Player)
      modifies player
      ensures player.observers == old(player.observers) - Stored(playerTimeObserver)
      ensures player.log == old(player.log) + Removal(playerTimeObserver)
      ensures player.rate == old(player.rate) && player.time == old(player.time)
    {
      if playerTimeObserver != null {
        player.RemoveTimeObserver(playerTimeObserver);
      }
    }

    /** Registers a new observer for `chapter` and stores it in place of the stored one, which stays registered. */
    method SetTimeObserver(chapter: Chapter, player: Player)
      modifies this`playerTimeObserver, player
      ensures playerTimeObserver != null && fresh(playerTimeObserver)
      ensures playerTimeObserver.chapter == chapter
      ensures player.observers == old(player.observers) + {playerTimeObserver}
      ensures player.log == old(player.log) + [AddTimeObserver(playerTimeObserver)]
      ensures player.rate == old(player.rate) && player.time == old(player.time)
    {
      playerTimeObserver := player.AddPeriodicTimeObserver(chapter);
    }

    /**
     * The observer's callback on a sample: store the progress through the
     * chapter the observer captured and post the time notification. Only
     * observers registered with the player are called.
     */
    method TimeObserverFired(player: Player, observer: Observer, sampleTime: real) returns (posted: bool)
      requires observer in player.observers
      modifies this`currentProgress
      ensures posted <==> ObservedProgress(observer.chapter, sampleTime).Some?
      ensures posted ==> currentProgress == ObservedProgress(observer.chapter, sampleTime).value
      ensures !posted ==> currentProgress == old(currentProgress)
    {
      var observed := ObservedProgress(observer.chapter, sampleTime);
      posted := observed.Some?;
      if posted {
        currentProgress := observed.value;
      }
    }
  }
}
