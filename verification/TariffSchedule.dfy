/** When a tariff applies (core/play_pricing.py) and which one a check-in gets (kids/services.py).

    A moment is a number of microseconds since the midnight that begins some Monday; a clock reading is
    the microseconds since its own midnight. */
module TariffSchedule {
  import opened Wrappers

  const DAY := 86_400_000_000

  type Clock = c: int | 0 <= c < DAY

  datatype Window = Window(days: seq<int>, from: Option<Clock>, to: Option<Clock>)

  function Weekday(moment: int): int {
    moment / DAY % 7
  }

  function ClockOf(moment: int): Clock {
    moment % DAY
  }

  predicate AppliesAt(w: Window, moment: int) {
    && (w.days != [] ==> Weekday(moment) in w.days)
    && (w.from.None? || w.to.None? || w.from == w.to ||
        var clock := ClockOf(moment);
        if w.from.value < w.to.value then w.from.value <= clock < w.to.value
        else clock >= w.from.value || clock < w.to.value)
  }

  /** Without both ends, or with equal ones, a window is all day, every day it lists or simply every day. */
  lemma AllDay(w: Window, moment: int)
    requires w.from.None? || w.to.None? || w.from == w.to
    ensures AppliesAt(w, moment) <==> w.days == [] || moment / DAY % 7 in w.days
  {
  }

  /** A window applies on its days alone, and on each of them as it would every day. */
  lemma DaysRestrict(w: Window, moment: int)
    ensures AppliesAt(w, moment)
       <==> (w.days == [] || moment / DAY % 7 in w.days) && AppliesAt(w.(days := []), moment)
  {
  }

  // ---- windows on the circle of the day ----

  function Since(start: Clock, clock: Clock): Clock {
    (clock - start) % DAY
  }

  /** Wrapping past midnight or not, a window is the moments less than its length after its start. */
  lemma WindowIsArc(from: Clock, to: Clock, moment: int)
    requires from != to
    ensures AppliesAt(Window([], Some(from), Some(to)), moment) <==> Since(from, ClockOf(moment)) < Since(from, to)
  {
    var clock := ClockOf(moment);
    SinceIs(from, clock);
    SinceIs(from, to);
  }

  lemma SinceIs(start: Clock, clock: Clock)
    ensures Since(start, clock) == if clock >= start then clock - start else clock - start + DAY
  {
    if clock < start {
      assert clock - start == (clock - start + DAY) - DAY;
    }
  }

  /** Two windows that end where the other starts share out every moment: exactly one applies. */
  lemma OppositeWindowsShareTheDay(days: seq<int>, a: Clock, b: Clock, moment: int)
    requires a != b && (days == [] || Weekday(moment) in days)
    ensures AppliesAt(Window(days, Some(a), Some(b)), moment) <==> !AppliesAt(Window(days, Some(b), Some(a)), moment)
  {
  }

  function Length(from: Clock, to: Clock): int {
    if from < to then to - from else to - from + DAY
  }

  /** The window that opens on this day of the count covers its whole length. */
  predicate CoversFrom(w: Window, day: int)
    requires w.from.Some? && w.to.Some?
  {
    var start := day * DAY + w.from.value;
    forall moment :: start <= moment < start + Length(w.from.value, w.to.value) ==> AppliesAt(w, moment)
  }

  /** A night that opens on a listed day is covered to its end exactly when it ends by midnight or the
      next day is listed too: the hours after midnight are judged by their own weekday. */
  lemma WholeNightExactly(days: seq<int>, from: Clock, to: Clock, day: int)
    requires from != to && days != []
    ensures CoversFrom(Window(days, Some(from), Some(to)), day)
       <==> day % 7 in days && (from < to || to == 0 || (day + 1) % 7 in days)
  {
    var w := Window(days, Some(from), Some(to));
    var open := day * DAY + from;
    MomentOnDay(day, from);
    if CoversFrom(w, day) {
      assert AppliesAt(w, open);
      if from > to > 0 {
        MomentOnDay(day + 1, 0);
        assert AppliesAt(w, (day + 1) * DAY);
      }
    } else {
      var moment :| open <= moment < open + Length(from, to) && !AppliesAt(w, moment);
      if moment < (day + 1) * DAY {
        MomentOnDay(day, moment - day * DAY);
      } else {
        MomentOnDay(day + 1, moment - (day + 1) * DAY);
      }
    }
  }

  lemma MomentOnDay(day: int, clock: Clock)
    ensures Weekday(day * DAY + clock) == day % 7 && ClockOf(day * DAY + clock) == clock
  {
  }

  // ---- choosing ----

  datatype Row = Row(id: nat, area: nat, active: bool, isDefault: bool, window: Window)

  datatype Error = NotAvailable | NoTariff

  predicate Configured(c: Row, configured: Option<nat>) {
    configured == Some(c.id)
  }

  /** Row k is the first one configured, else the first default one, else the first. */
  predicate IsFallback(candidates: seq<Row>, configured: Option<nat>, k: nat)
    requires k < |candidates|
  {
    if exists c <- candidates :: Configured(c, configured)
    then Configured(candidates[k], configured) && forall i :: 0 <= i < k ==> !Configured(candidates[i], configured)
    else if exists c <- candidates :: c.isDefault
    then candidates[k].isDefault && forall i :: 0 <= i < k ==> !candidates[i].isDefault
    else k == 0
  }

  /** Row k is the first that applies or, when none does, the fallback. */
  predicate Chosen(candidates: seq<Row>, moment: int, configured: Option<nat>, k: nat)
    requires k < |candidates|
  {
    if AppliesAt(candidates[k].window, moment) then forall i :: 0 <= i < k ==> !AppliesAt(candidates[i].window, moment)
    else (forall c <- candidates :: !AppliesAt(c.window, moment)) && IsFallback(candidates, configured, k)
  }

  lemma ChosenFallback(candidates: seq<Row>, moment: int, configured: Option<nat>, k: nat)
    requires k < |candidates| && forall i :: 0 <= i < |candidates| ==> !AppliesAt(candidates[i].window, moment)
    requires IsFallback(candidates, configured, k)
    ensures Chosen(candidates, moment, configured, k)
  {
  }

  /** `candidates` are the area's active tariffs, highest priority first. */
  method ResolveTariff(area: nat, candidates: seq<Row>, moment: int, requested: Option<Row>, configured: Option<nat>)
    returns (r: Result<Row, Error>)
    ensures requested.Some? ==>
              r == if requested.value.area == area && requested.value.active
                   then Ok(requested.value) else Err(NotAvailable)
    ensures requested.None? ==> (r == Err(NoTariff) <==> candidates == []) && (r.Err? ==> r.error == NoTariff)
    ensures requested.None? && candidates != [] ==>
              r.Ok? && exists k ::
                0 <= k < |candidates| && r.value == candidates[k] && Chosen(candidates, moment, configured, k)
  {
    if requested.Some? {
      if requested.value.area != area || !requested.value.active { return Err(NotAvailable); }
      return Ok(requested.value);
    }
    if candidates == [] { return Err(NoTariff); }
    for i := 0 to |candidates|
      invariant forall j :: 0 <= j < i ==> !AppliesAt(candidates[j].window, moment)
    {
      if AppliesAt(candidates[i].window, moment) { return Ok(candidates[i]); }
    }
    if configured.Some? {
      for i := 0 to |candidates|
        invariant forall j :: 0 <= j < i ==> !Configured(candidates[j], configured)
      {
        if candidates[i].id == configured.value {
          assert Configured(candidates[i], configured);
          ChosenFallback(candidates, moment, configured, i);
          return Ok(candidates[i]);
        }
      }
    }
    for i := 0 to |candidates|
      invariant forall j :: 0 <= j < i ==> !candidates[j].isDefault
    {
      if candidates[i].isDefault {
        ChosenFallback(candidates, moment, configured, i);
        return Ok(candidates[i]);
      }
    }
    ChosenFallback(candidates, moment, configured, 0);
    r := Ok(candidates[0]);
  }
}
