/**
 * Playback in assets/app.js: the one `currentAudio` shared by all song
 * cards, the play button and the `ended` event of each card, and the seek
 * bar with its two time labels.
 */
module Playback {
  import opened Options
  import opened Display

  /** `Number.isFinite(d) && d > 0` for a duration; `None` is NaN or an infinity. */
  predicate Known(duration: Option<nat>) {
    duration.Some? && duration.value > 0
  }

  /**
   * One `<audio>` element, its position and duration in whole seconds, and
   * whether its card is marked as playing (the `playing` class and the pause
   * icon).
   */
  class Audio {
    var paused: bool
    var currentTime: nat
    var duration: Option<nat>
    var marked: bool

    constructor (duration: Option<nat>)
      ensures paused && currentTime == 0 && this.duration == duration && !marked
    {
      paused := true;
      currentTime := 0;
      this.duration := duration;
      marked := false;
    }
  }

  /** Playing, or marked as playing. */
  predicate Active(a: Audio)
    reads a
  {
    !a.paused || a.marked
  }

  /** The play button's test: a known duration and a position at or past it. */
  predicate AtEnd(duration: Option<nat>, currentTime: nat) {
    Known(duration) && currentTime >= duration.value
  }

  /** The cards of the page and the global `currentAudio`. */
  class Player {
    const handles: seq<Audio>
    var current: Audio?

    /** `currentAudio` is one of the cards, and no other card plays or is marked. */
    predicate Valid()
      reads this, handles
    {
      && (current == null || current in handles)
      && forall h :: h in handles && Active(h) ==> h == current
    }

    constructor (handles: seq<Audio>)
      requires forall h :: h in handles ==> h.paused && !h.marked
      ensures Valid() && this.handles == handles && current == null
    {
      this.handles := handles;
      current := null;
    }

    /**
     * A click on the play button of `a`. Another current card is paused and
     * unmarked first. A paused `a` is rewound when it is at its end, asked to
     * play (`playAllowed` is whether the browser lets it), marked and made
     * current, whether or not it plays; a playing `a` is paused, unmarked,
     * and nothing is current.
     */
    method Click(a: Audio, playAllowed: bool)
      requires Valid() && a in handles
      modifies this, a, current
      ensures Valid()
      ensures current == a || current == null
      ensures a.duration == old(a.duration)
      ensures old(current) != null && old(current) != a ==>
        && old(current).paused && !old(current).marked
        && old(current).currentTime == old(current.currentTime)
        && old(current).duration == old(current.duration)
      ensures old(a.paused) ==>
        && current == a && a.marked && a.paused == !playAllowed
        && a.currentTime == if AtEnd(old(a.duration), old(a.currentTime)) then 0 else old(a.currentTime)
      ensures !old(a.paused) ==>
        current == null && a.paused && !a.marked && a.currentTime == old(a.currentTime)
    {
      if current != null && current != a {
        current.paused := true;
        current.marked := false;
        current := null;
      }
      if a.paused {
        if AtEnd(a.duration, a.currentTime) {
          a.currentTime := 0;
        }
        if playAllowed {
          a.paused := false;
        }
        a.marked := true;
        current := a;
      } else {
        a.paused := true;
        a.marked := false;
        current := null;
      }
    }

    /**
     * The end of playback of `a`: the browser pauses it, and the handler
     * rewinds it, unmarks its card, and clears `currentAudio` if it was `a`.
     */
    method Ended(a: Audio)
      requires Valid() && a in handles
      modifies this, a
      ensures Valid()
      ensures a.paused && a.currentTime == 0 && !a.marked && a.duration == old(a.duration)
      ensures current == if old(current) == a then null else old(current)
    {
      a.paused := true;
      a.currentTime := 0;
      a.marked := false;
      if current == a {
        current := null;
      }
    }
  }

  /** At most one card is playing or marked as playing. */
  lemma AtMostOneActive(p: Player, a: Audio, b: Audio)
    requires p.Valid() && a in p.handles && b in p.handles
    requires Active(a) && Active(b)
    ensures a == b
  {
  }

  // ---------------------------------------------------------------- seek bar

  /** `Math.max(0, dur - cur)` */
  function Remaining(cur: nat, dur: nat): (r: nat)
    ensures cur <= dur ==> cur + r == dur
    ensures cur >= dur ==> r == 0
  {
    if dur >= cur then dur - cur else 0
  }

  /** The label of the position, as `setTimes` writes it. */
  function CurrentText(cur: nat): string {
    FormatTime(Finite(cur))
  }

  /** The label of the time left, as `setTimes` writes it: `--:--` without a known duration. */
  function RemainingText(cur: nat, dur: Option<nat>): string {
    if Known(dur) then "-" + FormatTime(Finite(Remaining(cur, dur.value))) else NoTime
  }

  /** The labels read back as the position and, with a known duration, the time left. */
  lemma LabelsReadBack(cur: nat, dur: Option<nat>)
    ensures ParseClock(CurrentText(cur)) == Some(cur)
    ensures Known(dur) ==> var r := RemainingText(cur, dur);
      r[0] == '-' && ParseClock(r[1..]) == Some(Remaining(cur, dur.value))
    ensures !Known(dur) ==> RemainingText(cur, dur) == NoTime
  {
    FormatTimeRoundTrip(cur);
    if Known(dur) {
      var left := FormatTime(Finite(Remaining(cur, dur.value)));
      assert ("-" + left)[1..] == left;
      FormatTimeRoundTrip(Remaining(cur, dur.value));
    }
  }

  /** The progress bar of one card and its two labels, wired to its `<audio>`. */
  class SeekBar {
    const audio: Audio
    var isSeeking: bool
    var max: nat
    var value: nat
    var currentText: string
    var remainingText: string

    /** Wiring and the first paint: `syncDuration()` then `syncTime()`. */
    constructor (audio: Audio)
      ensures this.audio == audio && !isSeeking
      ensures max == (if Known(audio.duration) then audio.duration.value else 0)
      ensures value == audio.currentTime
      ensures currentText == CurrentText(audio.currentTime)
      ensures remainingText == RemainingText(audio.currentTime, audio.duration)
    {
      this.audio := audio;
      isSeeking := false;
      max := 0;
      value := 0;
      currentText := NoTime;
      remainingText := NoTime;
      new;
      SyncDuration();
      SyncTime();
    }

    /** `setTimes(cur, dur)` */
    method SetTimes(cur: nat, dur: Option<nat>)
      modifies this
      ensures currentText == CurrentText(cur) && remainingText == RemainingText(cur, dur)
      ensures isSeeking == old(isSeeking) && max == old(max) && value == old(value)
    {
      currentText := FormatTime(Finite(cur));
      if Known(dur) {
        var left := Remaining(cur, dur.value);
        remainingText := "-" + FormatTime(Finite(left));
      } else {
        remainingText := NoTime;
      }
    }

    /** `syncDuration`: the bar's range follows the duration; its value only when no seek is under way. */
    method SyncDuration()
      modifies this
      ensures isSeeking == old(isSeeking)
      ensures max == if Known(audio.duration) then audio.duration.value else 0
      ensures value == if isSeeking then old(value) else if Known(audio.duration) then audio.currentTime else 0
      ensures currentText == CurrentText(audio.currentTime)
      ensures remainingText == RemainingText(audio.currentTime, audio.duration)
    {
      if Known(audio.duration) {
        max := audio.duration.value;
        if !isSeeking {
          value := audio.currentTime;
        }
        SetTimes(audio.currentTime, audio.duration);
      } else {
        max := 0;
        if !isSeeking {
          value := 0;
        }
        SetTimes(audio.currentTime, None);
      }
    }

    /** `syncTime`: ignored during a seek; otherwise the bar and the labels follow the position. */
    method SyncTime()
      modifies this
      ensures old(isSeeking) ==> unchanged(this)
      ensures !old(isSeeking) ==>
        && !isSeeking && max == old(max) && value == audio.currentTime
        && currentText == CurrentText(audio.currentTime)
        && remainingText == RemainingText(audio.currentTime, audio.duration)
    {
      if isSeeking {
        return;
      }
      value := audio.currentTime;
      SetTimes(audio.currentTime, audio.duration);
    }

    /** `pointerdown` on the bar. */
    method BeginSeek()
      modifies this
      ensures isSeeking
      ensures max == old(max) && value == old(value)
      ensures currentText == old(currentText) && remainingText == old(remainingText)
    {
      isSeeking := true;
    }

    /** `pointerup` or `pointercancel`: the seek ends and the bar catches up with the position. */
    method EndSeek()
      modifies this
      ensures !isSeeking && max == old(max) && value == audio.currentTime
      ensures currentText == CurrentText(audio.currentTime)
      ensures remainingText == RemainingText(audio.currentTime, audio.duration)
    {
      isSeeking := false;
      SyncTime();
    }

    /**
     * An `input` event while dragging the bar to `v`: the bar takes `v`,
     * kept within its range as a range input keeps it; `parseFloat` of the
     * bar's value is then always finite, so the position jumps to it at once,
     * seek or no seek, and the labels follow it.
     */
    method Input(v: nat)
      modifies this, audio
      ensures value == if v <= old(max) then v else old(max)
      ensures value <= max
      ensures audio.currentTime == value
      ensures audio.paused == old(audio.paused) && audio.duration == old(audio.duration)
      ensures audio.marked == old(audio.marked)
      ensures isSeeking == old(isSeeking) && max == old(max)
      ensures currentText == CurrentText(value) && remainingText == RemainingText(value, audio.duration)
    {
      value := if v <= max then v else max;
      var next := value;
      audio.currentTime := next;
      SetTimes(next, audio.duration);
    }
  }
}
