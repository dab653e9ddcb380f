/** The per-shift OEE breakdown: slicing a window into shift occurrences, day by day. */
module ShiftSlicing {
  import opened Prelude
  import O = Oee

  /** A day, in microseconds. */
  const DAY := 86_400_000_000

  /** A shift of the site, by times of day. */
  datatype Shift = Shift(name: string, startTime: int, endTime: int) {
    predicate Valid() {
      0 <= startTime < DAY && 0 <= endTime < DAY
    }

    /** An end at or before the start means the shift runs into the next day. */
    function Length(): int {
      if endTime > startTime then endTime - startTime else endTime - startTime + DAY
    }

    /** The time of day of `t` falls in the shift. */
    predicate OnClock(t: int) {
      (t - startTime) % DAY < Length()
    }
  }

  /** Day `day`'s occurrence of the shift holds instant `t`. */
  predicate Occurs(sh: Shift, day: int, t: int) {
    day * DAY + sh.startTime <= t < day * DAY + sh.startTime + sh.Length()
  }

  function DayOf(t: int): int {
    t / DAY
  }

  /** What the query returns: shifts in order of start time. */
  ghost predicate InOrder(shifts: seq<Shift>) {
    && (forall i :: 0 <= i < |shifts| ==> shifts[i].Valid())
    && (forall i, j :: 0 <= i < j < |shifts| ==> shifts[i].startTime <= shifts[j].startTime)
  }

  /** No time of day belongs to two shifts. */
  ghost predicate DisjointOnClock(shifts: seq<Shift>) {
    forall i, j, t :: 0 <= i < j < |shifts| ==> !(shifts[i].OnClock(t) && shifts[j].OnClock(t))
  }

  datatype ShiftOee = ShiftOee(shiftName: string, start: int, end: int, result: O.OeeResult)

  /** Disjoint shifts follow one another around the clock. */
  lemma AroundTheClock(shifts: seq<Shift>, i: int, j: int)
    requires InOrder(shifts) && DisjointOnClock(shifts) && 0 <= i < j < |shifts|
    ensures shifts[i].startTime + shifts[i].Length() <= shifts[j].startTime
    ensures shifts[j].startTime + shifts[j].Length() - DAY <= shifts[i].startTime
  {
    var a, b := shifts[i], shifts[j];
    assert a.Valid() && b.Valid();
    assert a.OnClock(a.startTime) && b.OnClock(b.startTime);
    Wrap(b.startTime - a.startTime);
    Wrap(a.startTime - b.startTime);
    assert !a.OnClock(b.startTime) && !b.OnClock(a.startTime);
  }

  lemma Wrap(d: int)
    requires -DAY < d < DAY
    ensures d % DAY == if d >= 0 then d else d + DAY
  {
  }

  /** `e` is no later than the start of any occurrence from shift `k` of `day` on. */
  ghost predicate BeforeRest(shifts: seq<Shift>, day: int, k: nat, e: int) {
    && (forall j :: k <= j < |shifts| ==> e <= day * DAY + shifts[j].startTime)
    && (forall j :: 0 <= j < |shifts| ==> e <= (day + 1) * DAY + shifts[j].startTime)
  }

  lemma EndsBeforeRest(shifts: seq<Shift>, day: int, k: int)
    requires InOrder(shifts) && DisjointOnClock(shifts) && 0 <= k < |shifts|
    ensures BeforeRest(shifts, day, k + 1, day * DAY + shifts[k].startTime + shifts[k].Length())
  {
    assert shifts[k].Valid();
    forall j | 0 <= j < |shifts|
      ensures k < j ==> shifts[k].startTime + shifts[k].Length() <= shifts[j].startTime
      ensures shifts[k].startTime + shifts[k].Length() - DAY <= shifts[j].startTime
    {
      if k < j {
        AroundTheClock(shifts, k, j);
        assert shifts[j].Valid();
      } else if j < k {
        AroundTheClock(shifts, j, k);
      }
    }
  }

  ghost predicate InSlices(out: seq<ShiftOee>, t: int) {
    exists s :: s in out && s.start <= t < s.end
  }

  /** Slice `x` is all that the window holds of day `day`'s occurrence of the shift. */
  ghost predicate CutsOut(sh: Shift, day: int, start: int, end: int, x: ShiftOee) {
    && start <= x.start < x.end <= end && x.shiftName == sh.name
    && forall t :: start <= t < end ==> (Occurs(sh, day, t) <==> x.start <= t < x.end)
  }

  /** Day `day`'s occurrence of the shift meets the window. */
  ghost predicate Meets(sh: Shift, day: int, start: int, end: int) {
    exists t :: start <= t < end && Occurs(sh, day, t)
  }

  /** An occurrence: a day and the index of a shift. */
  datatype Occurrence = Occurrence(day: int, shift: int) {
    /** Visited by the loop before `other`. */
    predicate Before(other: Occurrence) {
      day < other.day || (day == other.day && shift < other.shift)
    }
  }

  /** The slices, in the order of the occurrences `occ` they belong to. */
  ghost predicate SlicesOf(shifts: seq<Shift>, start: int, end: int, out: seq<ShiftOee>, occ: seq<Occurrence>) {
    && |occ| == |out| && Pairwise(occ, (a: Occurrence, b: Occurrence) => a.Before(b))
    && forall i :: 0 <= i < |occ| ==>
         && DayOf(start) <= occ[i].day && 0 <= occ[i].shift < |shifts|
         && CutsOut(shifts[occ[i].shift], occ[i].day, start, end, out[i])
  }

  /** Every occurrence from the first day on, and before `next`, that meets the window is listed. */
  ghost predicate Complete(shifts: seq<Shift>, start: int, end: int, occ: seq<Occurrence>, next: Occurrence) {
    forall o: Occurrence ::
      (&& DayOf(start) <= o.day && 0 <= o.shift < |shifts| && o.Before(next)
       && Meets(shifts[o.shift], o.day, start, end)) ==> o in occ
  }

  /** There is exactly one slice for each occurrence, from the first day on, that meets the window. */
  ghost predicate OneSliceEach(shifts: seq<Shift>, start: int, end: int, out: seq<ShiftOee>, occ: seq<Occurrence>) {
    && SlicesOf(shifts, start, end, out, occ)
    && forall o: Occurrence :: o in occ <==>
         DayOf(start) <= o.day && 0 <= o.shift < |shifts| && Meets(shifts[o.shift], o.day, start, end)
  }

  /** Every slice carries its OEE; for shifts disjoint on the clock, slices are in time order. */
  ghost predicate Sliced(shifts: seq<Shift>, d: O.Data, wc: string, out: seq<ShiftOee>) {
    && (forall i :: 0 <= i < |out| ==> O.OeeSql(d, wc, out[i].start, out[i].end) == Ok(out[i].result))
    && (DisjointOnClock(shifts) ==> forall i, j :: 0 <= i < j < |out| ==> out[i].end <= out[j].start)
  }

  /** The loop state before occurrence `next`. */
  ghost predicate SoFar(shifts: seq<Shift>, d: O.Data, wc: string, start: int, end: int, next: Occurrence,
                        out: seq<ShiftOee>, occ: seq<Occurrence>) {
    && DayOf(start) <= next.day && 0 <= next.shift <= |shifts|
    && Sliced(shifts, d, wc, out) && SlicesOf(shifts, start, end, out, occ) && Complete(shifts, start, end, occ, next)
    && (forall o :: o in occ ==> o.Before(next))
    && (DisjointOnClock(shifts) ==> forall i :: 0 <= i < |out| ==> BeforeRest(shifts, next.day, next.shift, out[i].end))
  }

  lemma SkipOccurrence(shifts: seq<Shift>, d: O.Data, wc: string, start: int, end: int, next: Occurrence,
                       out: seq<ShiftOee>, occ: seq<Occurrence>)
    requires SoFar(shifts, d, wc, start, end, next, out, occ) && next.shift < |shifts|
    requires !Meets(shifts[next.shift], next.day, start, end)
    ensures SoFar(shifts, d, wc, start, end, next.(shift := next.shift + 1), out, occ)
  {
    hide Sliced, SlicesOf;
    var after := next.(shift := next.shift + 1);
    forall o: Occurrence | o.Before(after) ensures o.Before(next) || o == next {
    }
  }

  lemma AddOccurrence(shifts: seq<Shift>, d: O.Data, wc: string, start: int, end: int, next: Occurrence,
                      out: seq<ShiftOee>, occ: seq<Occurrence>, x: ShiftOee)
    requires InOrder(shifts) && SoFar(shifts, d, wc, start, end, next, out, occ) && next.shift < |shifts|
    requires CutsOut(shifts[next.shift], next.day, start, end, x)
    requires O.OeeSql(d, wc, x.start, x.end) == Ok(x.result)
    ensures SoFar(shifts, d, wc, start, end, next.(shift := next.shift + 1), out + [x], occ + [next])
  {
    hide O.OeeSql;
    AddSliced(shifts, d, wc, start, end, next, out, x);
    AddSlice(shifts, start, end, next, out, occ, x);
    AddComplete(shifts, start, end, next, occ);
    hide Sliced, SlicesOf, Complete;
    forall o | o in occ + [next] ensures o.Before(next.(shift := next.shift + 1)) {
      assert o in occ || o == next;
    }
  }

  lemma AddSliced(shifts: seq<Shift>, d: O.Data, wc: string, start: int, end: int, next: Occurrence,
                  out: seq<ShiftOee>, x: ShiftOee)
    requires InOrder(shifts) && 0 <= next.shift < |shifts| && Sliced(shifts, d, wc, out)
    requires DisjointOnClock(shifts) ==>
               forall i :: 0 <= i < |out| ==> BeforeRest(shifts, next.day, next.shift, out[i].end)
    requires CutsOut(shifts[next.shift], next.day, start, end, x)
    requires O.OeeSql(d, wc, x.start, x.end) == Ok(x.result)
    ensures Sliced(shifts, d, wc, out + [x])
    ensures DisjointOnClock(shifts) ==>
              forall i :: 0 <= i < |out + [x]| ==> BeforeRest(shifts, next.day, next.shift + 1, (out + [x])[i].end)
  {
    hide O.OeeSql, DisjointOnClock;
    assert Occurs(shifts[next.shift], next.day, x.start) && Occurs(shifts[next.shift], next.day, x.end - 1);
    if DisjointOnClock(shifts) {
      EndsBeforeRest(shifts, next.day, next.shift);
      forall i | 0 <= i < |out| ensures out[i].end <= x.start {
        assert BeforeRest(shifts, next.day, next.shift, out[i].end);
      }
    }
  }

  lemma AddSlice(shifts: seq<Shift>, start: int, end: int, next: Occurrence, out: seq<ShiftOee>, occ: seq<Occurrence>,
                 x: ShiftOee)
    requires SlicesOf(shifts, start, end, out, occ) && (forall o :: o in occ ==> o.Before(next))
    requires DayOf(start) <= next.day && 0 <= next.shift < |shifts|
    requires CutsOut(shifts[next.shift], next.day, start, end, x)
    ensures SlicesOf(shifts, start, end, out + [x], occ + [next])
  {
    hide CutsOut;
    PairwiseAppend(occ, next, (a: Occurrence, b: Occurrence) => a.Before(b));
  }

  lemma AddComplete(shifts: seq<Shift>, start: int, end: int, next: Occurrence, occ: seq<Occurrence>)
    requires Complete(shifts, start, end, occ, next)
    ensures Complete(shifts, start, end, occ + [next], next.(shift := next.shift + 1))
  {
    hide Meets;
    forall o: Occurrence | o.Before(next.(shift := next.shift + 1)) ensures o.Before(next) || o == next {
    }
    assert next in occ + [next] && forall o :: o in occ ==> o in occ + [next];
  }

  lemma NextDay(shifts: seq<Shift>, d: O.Data, wc: string, start: int, end: int, day: int,
                out: seq<ShiftOee>, occ: seq<Occurrence>)
    requires InOrder(shifts) && SoFar(shifts, d, wc, start, end, Occurrence(day, |shifts|), out, occ)
    ensures SoFar(shifts, d, wc, start, end, Occurrence(day + 1, 0), out, occ)
  {
    hide Sliced, SlicesOf, DisjointOnClock;
    if DisjointOnClock(shifts) {
      forall i | 0 <= i < |out| ensures BeforeRest(shifts, day + 1, 0, out[i].end) {
        assert BeforeRest(shifts, day, |shifts|, out[i].end);
      }
    }
  }

  /** An occurrence that starts on or after the first day of the window holds `t`. */
  ghost predicate OnShift(shifts: seq<Shift>, first: int, t: int) {
    exists day, j :: first <= day && 0 <= j < |shifts| && Occurs(shifts[j], day, t)
  }

  /** The slices cover exactly the window's instants that lie in an occurrence starting on or
      after the window's first day. */
  lemma SlicesCover(shifts: seq<Shift>, start: int, end: int, out: seq<ShiftOee>, occ: seq<Occurrence>, t: int)
    requires OneSliceEach(shifts, start, end, out, occ) && start <= t < end
    ensures InSlices(out, t) <==> OnShift(shifts, DayOf(start), t)
  {
    if InSlices(out, t) {
      var x :| x in out && x.start <= t < x.end;
      var i :| 0 <= i < |out| && out[i] == x;
      assert CutsOut(shifts[occ[i].shift], occ[i].day, start, end, out[i]);
      assert Occurs(shifts[occ[i].shift], occ[i].day, t);
    }
    if OnShift(shifts, DayOf(start), t) {
      var day, j :| DayOf(start) <= day && 0 <= j < |shifts| && Occurs(shifts[j], day, t);
      assert Meets(shifts[j], day, start, end);
      assert Occurrence(day, j) in occ;
      var i :| 0 <= i < |occ| && occ[i] == Occurrence(day, j);
      assert CutsOut(shifts[j], day, start, end, out[i]) && out[i] in out;
    }
  }

  /** The day loop, over any window and any shifts: one slice for each occurrence, from the
      window's first day on, that meets the window, in order of day and shift; for shifts
      disjoint on the clock the slices are disjoint and in time order. */
  method OeeByShift(d: O.Data, wc: string, shifts: seq<Shift>, start: int, end: int) returns (r: Result<seq<ShiftOee>>)
    requires InOrder(shifts)
    ensures r.Ok? ==> Sliced(shifts, d, wc, r.value)
    ensures r.Ok? ==> exists occ :: OneSliceEach(shifts, start, end, r.value, occ)
    ensures r.Err? ==> wc !in d.ideal && start < end
  {
    hide SoFar, OneSliceEach, Sliced;
    var out := [];
    ghost var occ := [];
    var day := DayOf(start);
    var last := DayOf(end);
    Starting(shifts, d, wc, start, end);
    while day <= last
      invariant DayOf(start) <= day && SoFar(shifts, d, wc, start, end, Occurrence(day, 0), out, occ)
      decreases last - day
    {
      for k := 0 to |shifts|
        invariant SoFar(shifts, d, wc, start, end, Occurrence(day, k), out, occ)
      {
        var s := day * DAY + shifts[k].startTime;
        var e := day * DAY + shifts[k].endTime;
        if e <= s {
          e := e + DAY;
        }
        var clampedStart := if s > start then s else start;
        var clampedEnd := if e < end then e else end;
        if clampedStart >= clampedEnd {
          SkipOccurrence(shifts, d, wc, start, end, Occurrence(day, k), out, occ);
          continue;
        }
        var result := O.OeeSql(d, wc, clampedStart, clampedEnd);
        if result.Err? {
          return Err(result.error);
        }
        var x := ShiftOee(shifts[k].name, clampedStart, clampedEnd, result.value);
        AddOccurrence(shifts, d, wc, start, end, Occurrence(day, k), out, occ, x);
        out := out + [x];
        occ := occ + [Occurrence(day, k)];
      }
      NextDay(shifts, d, wc, start, end, day, out, occ);
      day := day + 1;
    }
    Finished(shifts, d, wc, start, end, day, out, occ);
    r := Ok(out);
  }

  lemma Starting(shifts: seq<Shift>, d: O.Data, wc: string, start: int, end: int)
    ensures SoFar(shifts, d, wc, start, end, Occurrence(DayOf(start), 0), [], [])
  {
  }

  lemma Finished(shifts: seq<Shift>, d: O.Data, wc: string, start: int, end: int, day: int,
                 out: seq<ShiftOee>, occ: seq<Occurrence>)
    requires InOrder(shifts) && DayOf(start) <= day && DayOf(end) < day
    requires SoFar(shifts, d, wc, start, end, Occurrence(day, 0), out, occ)
    ensures Sliced(shifts, d, wc, out) && OneSliceEach(shifts, start, end, out, occ)
  {
    hide Sliced;
    forall o: Occurrence
      ensures o in occ <==> DayOf(start) <= o.day && 0 <= o.shift < |shifts|
                            && Meets(shifts[o.shift], o.day, start, end)
    {
      if o in occ {
        ListedMeets(shifts, start, end, out, occ, o);
      }
      if DayOf(start) <= o.day && 0 <= o.shift < |shifts| && Meets(shifts[o.shift], o.day, start, end) {
        MeetsEarly(shifts[o.shift], o.day, start, end);
      }
    }
  }

  lemma ListedMeets(shifts: seq<Shift>, start: int, end: int, out: seq<ShiftOee>, occ: seq<Occurrence>, o: Occurrence)
    requires SlicesOf(shifts, start, end, out, occ) && o in occ
    ensures DayOf(start) <= o.day && 0 <= o.shift < |shifts| && Meets(shifts[o.shift], o.day, start, end)
  {
    var i :| 0 <= i < |occ| && occ[i] == o;
    assert CutsOut(shifts[o.shift], o.day, start, end, out[i]);
    assert Occurs(shifts[o.shift], o.day, out[i].start);
  }

  lemma MeetsEarly(sh: Shift, day: int, start: int, end: int)
    requires sh.Valid() && Meets(sh, day, start, end)
    ensures day <= DayOf(end)
  {
  }

  // ---- What the first day leaves out ---------------------------------------

  /** Some shift has `t` on its clock. */
  ghost predicate OnAnyClock(shifts: seq<Shift>, t: int) {
    exists j :: 0 <= j < |shifts| && shifts[j].OnClock(t)
  }

  /** A time of day belongs to a shift exactly when some day's occurrence holds the instant:
      that day's own or the day before's. */
  lemma ClockIsOccurrence(sh: Shift, t: int)
    requires sh.Valid()
    ensures sh.OnClock(t) <==> Occurs(sh, DayOf(t), t) || Occurs(sh, DayOf(t) - 1, t)
    ensures forall day :: Occurs(sh, day, t) ==> day == DayOf(t) || day == DayOf(t) - 1
  {
    var u := t - DayOf(t) * DAY;
    assert t - sh.startTime == DayOf(t) * DAY + (u - sh.startTime);
    ShiftDays(u - sh.startTime, DayOf(t));
    Wrap(u - sh.startTime);
  }

  lemma ShiftDays(d: int, n: int)
    ensures (n * DAY + d) % DAY == d % DAY
  {
  }

  /** Every scheduled instant of the window is in an occurrence that the day loop visits. */
  ghost predicate NothingMissed(shifts: seq<Shift>, start: int, end: int) {
    forall t :: start <= t < end ==> (OnAnyClock(shifts, t) <==> OnShift(shifts, DayOf(start), t))
  }

  /** What the window holds of the day before's occurrences lies in visited ones too. */
  ghost predicate LeftoversCovered(shifts: seq<Shift>, start: int, end: int) {
    forall j, t :: 0 <= j < |shifts| && start <= t < end && Occurs(shifts[j], DayOf(start) - 1, t) ==>
      OnShift(shifts, DayOf(start), t)
  }

  /** The slices miss no scheduled instant of the window exactly when what is left in it of the
      day before's occurrences is covered by later ones, for any shifts, overlapping or not. */
  lemma NothingMissedIff(shifts: seq<Shift>, start: int, end: int)
    requires InOrder(shifts)
    ensures NothingMissed(shifts, start, end) <==> LeftoversCovered(shifts, start, end)
  {
    if NothingMissed(shifts, start, end) {
      forall j, t | 0 <= j < |shifts| && start <= t < end && Occurs(shifts[j], DayOf(start) - 1, t)
        ensures OnShift(shifts, DayOf(start), t)
      {
        assert shifts[j].Valid();
        ClockIsOccurrence(shifts[j], t);
        assert OnAnyClock(shifts, t);
      }
    }
    if LeftoversCovered(shifts, start, end) {
      forall t | start <= t < end ensures OnAnyClock(shifts, t) <==> OnShift(shifts, DayOf(start), t) {
        ScheduledIsOnShift(shifts, start, end, t);
      }
    }
  }

  lemma ScheduledIsOnShift(shifts: seq<Shift>, start: int, end: int, t: int)
    requires InOrder(shifts) && start <= t < end && LeftoversCovered(shifts, start, end)
    ensures OnAnyClock(shifts, t) <==> OnShift(shifts, DayOf(start), t)
  {
    if OnShift(shifts, DayOf(start), t) {
      var day, j :| DayOf(start) <= day && 0 <= j < |shifts| && Occurs(shifts[j], day, t);
      assert shifts[j].Valid();
      ClockIsOccurrence(shifts[j], t);
    }
    if OnAnyClock(shifts, t) {
      var j :| 0 <= j < |shifts| && shifts[j].OnClock(t);
      assert shifts[j].Valid();
      ClockIsOccurrence(shifts[j], t);
      var day := if Occurs(shifts[j], DayOf(t), t) then DayOf(t) else DayOf(t) - 1;
      assert Occurs(shifts[j], day, t) && DayOf(start) - 1 <= day;
    }
  }

  /** The day before's occurrence of the shift is over when the window starts. */
  predicate OverBefore(sh: Shift, start: int) {
    (DayOf(start) - 1) * DAY + sh.startTime + sh.Length() <= start
  }

  lemma NotOverMissed(shifts: seq<Shift>, j: int, start: int)
    requires InOrder(shifts) && DisjointOnClock(shifts) && 0 <= j < |shifts| && !OverBefore(shifts[j], start)
    ensures Occurs(shifts[j], DayOf(start) - 1, start) && !OnShift(shifts, DayOf(start), start)
  {
    assert shifts[j].Valid();
    ClockIsOccurrence(shifts[j], start);
    assert Occurs(shifts[j], DayOf(start) - 1, start);
    if OnShift(shifts, DayOf(start), start) {
      var day, i :| DayOf(start) <= day && 0 <= i < |shifts| && Occurs(shifts[i], day, start);
      assert shifts[i].Valid();
      ClockIsOccurrence(shifts[i], start);
    }
  }

  /** For shifts disjoint on the clock nothing is missed exactly when every shift's occurrence
      of the day before is over by the window's start. */
  lemma NothingMissedDisjoint(shifts: seq<Shift>, start: int, end: int)
    requires InOrder(shifts) && DisjointOnClock(shifts) && start < end
    ensures NothingMissed(shifts, start, end) <==> forall j :: 0 <= j < |shifts| ==> OverBefore(shifts[j], start)
  {
    hide NothingMissed;
    NothingMissedIff(shifts, start, end);
    if j :| 0 <= j < |shifts| && !OverBefore(shifts[j], start) {
      NotOverMissed(shifts, j, start);
    }
  }

  /** An overnight occurrence that began the day before the window is not sliced: at 02:00
      of the first day, a 22:00 to 06:00 shift is on the clock but in no slice. */
  lemma EarlierOvernightMissed()
    ensures var night := Shift("night", 79_200_000_000, 21_600_000_000);
            && InOrder([night]) && DisjointOnClock([night])
            && night.OnClock(7_200_000_000)
            && !OnShift([night], DayOf(0), 7_200_000_000)
  {
    var night := Shift("night", 79_200_000_000, 21_600_000_000);
    assert (7_200_000_000 - 79_200_000_000) % DAY == 14_400_000_000;
  }
}
