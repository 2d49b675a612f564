/** Session windows: when trading may begin, and until when. */
module SessionPolicy {
  import opened Common

  const MINUTES_PER_DAY := 1440
  const EXIT_BUFFER := 5

  /** A minute of the day. */
  type Minute = m: nat | m < MINUTES_PER_DAY

  /** A daily window; one that ends before it starts runs over midnight. */
  datatype Window = Window(start: Minute, end: Minute) {
    predicate Contains(minute: Minute) {
      if start <= end then start <= minute < end else minute >= start || minute < end
    }

    function MinutesUntilClose(minute: Minute): Option<nat> {
      if !Contains(minute) then None
      else if start <= end || minute < end then Some(end - minute)
      else Some(MINUTES_PER_DAY - minute + end)
    }
  }

  function MinuteOfDay(ts: Time): Minute {
    ts / 60000 % MINUTES_PER_DAY
  }

  /** A position keeps an instrument tradable outside its session; without one it must have more than the buffer left.
      An instrument without a session is never open. */
  predicate Tradable(session: Option<Window>, ts: Time, hasPosition: bool) {
    var left := if session.Some? then session.value.MinutesUntilClose(MinuteOfDay(ts)) else None;
    (left.Some? && left.value > EXIT_BUFFER) || hasPosition
  }

  /** The minute of the day `k` minutes on. */
  function MinutesOn(minute: Minute, k: nat): Minute
    requires k <= MINUTES_PER_DAY
  {
    if minute + k < MINUTES_PER_DAY then minute + k else minute + k - MINUTES_PER_DAY
  }

  /** The minutes left are those until the first minute outside the window. */
  lemma ClosesAfterMinutesLeft(w: Window, minute: Minute)
    ensures w.MinutesUntilClose(minute).None? <==> !w.Contains(minute)
    ensures match w.MinutesUntilClose(minute)
            case None => true
            case Some(left) =>
              && left <= MINUTES_PER_DAY && !w.Contains(MinutesOn(minute, left))
              && forall k :: 0 <= k < left ==> w.Contains(MinutesOn(minute, k))
  {
  }

  /** Tradable if and only if a position is held or the window stays open for this minute and the buffer after it; an
      instrument without a session only while a position is held. */
  lemma TradableIffOpenThroughBuffer(w: Window, ts: Time, hasPosition: bool)
    ensures Tradable(Some(w), ts, hasPosition)
            <==> hasPosition || forall k :: 0 <= k <= 5 ==> w.Contains(MinutesOn(MinuteOfDay(ts), k))
    ensures Tradable(None, ts, hasPosition) <==> hasPosition
  {
    hide Window.Contains, Window.MinutesUntilClose, MinuteOfDay;
    var minute := MinuteOfDay(ts);
    ClosesAfterMinutesLeft(w, minute);
    if w.MinutesUntilClose(minute).None? {
      assert MinutesOn(minute, 0) == minute;
    }
  }

  /** The minute of the day is zero at midnight, stays for sixty seconds and then moves on by one. */
  lemma MinutesPass(ts: Time, d: nat)
    ensures MinuteOfDay(0) == 0
    ensures MinuteOfDay(ts + 60000) == MinutesOn(MinuteOfDay(ts), 1)
    ensures d < 60000 - ts % 60000 ==> MinuteOfDay(ts + d) == MinuteOfDay(ts)
  {
    assert (ts + 60000) / 60000 == ts / 60000 + 1;
    assert d < 60000 - ts % 60000 ==> (ts + d) / 60000 == ts / 60000;
  }
}
