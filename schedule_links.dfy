/**
 * The schedule links get_homes builds for every zone (pyephember2.py,
 * get_homes): each device day's "pN" programs are collected in key order,
 * the days are kept in day-type order, and every program receives a "Prev"
 * and a "Next" link. A link is modelled as a Slot: the position of the day
 * in zone["days"] and the position of the program in that day.
 */
module ScheduleLinks {
  import opened Wrappers
  import opened ZoneData

  /** The programs of one device day in key order: the "pN" entries that are not None, unlinked. */
  function Collect(periods: seq<Period>): (ps: seq<Program>)
    ensures |ps| <= |periods|
    ensures forall q :: 0 <= q < |ps| ==> ps[q].prev == None && ps[q].next == None
  {
    if |periods| == 0 then []
    else
      var init := Collect(periods[..|periods| - 1]);
      var last := periods[|periods| - 1];
      match last.program
      case None => init
      case Some(data) => init + [Program(last.number, data, None, None)]
  }

  /** Exactly the periods that hold a program are collected, each with its number and data. */
  lemma {:induction false} CollectMembers(periods: seq<Period>)
    ensures forall q :: 0 <= q < |Collect(periods)| ==>
      Period(Collect(periods)[q].count, Some(Collect(periods)[q].data)) in periods
    ensures forall j :: 0 <= j < |periods| && periods[j].program.Some? ==>
      Program(periods[j].number, periods[j].program.value, None, None) in Collect(periods)
    decreases |periods|
  {
    if |periods| > 0 {
      var init := periods[..|periods| - 1];
      CollectMembers(init);
      assert forall j :: 0 <= j < |init| ==> init[j] == periods[j];
    }
  }

  /**
   * The device days as the server sends them: every day has a day type, the
   * day types ascend, and within a day the program numbers ascend.
   */
  predicate ScheduleOrdered(dd: seq<DeviceDay>)
  {
    (forall k :: 0 <= k < |dd| ==> dd[k].dayType.Some?)
    && (forall i, j :: 0 <= i < j < |dd| ==> dd[i].dayType.value < dd[j].dayType.value)
    && (forall k, i, j :: 0 <= k < |dd| && 0 <= i < j < |dd[k].periods| ==>
          dd[k].periods[i].number < dd[k].periods[j].number)
  }

  /** zone["days"] after the forward pass, before any link is set. */
  function Unlinked(dd: seq<DeviceDay>): (days: seq<Day>)
    requires ScheduleOrdered(dd)
    ensures |days| == |dd|
  {
    seq(|dd|, k requires 0 <= k < |dd| => Day(dd[k].dayType.value, Collect(dd[k].periods)))
  }

  /** At least one day, and no day without programs (firstKey/lastKey would raise). */
  predicate AllNonEmpty(days: seq<Day>)
  {
    |days| > 0 && forall k :: 0 <= k < |days| ==> |days[k].programs| > 0
  }

  predicate ValidSlot(days: seq<Day>, s: Slot)
  {
    s.day < |days| && s.pos < |days[s.day].programs|
  }

  /** The program after (d, p) in (day, program) order; the last program of the week wraps to the first. */
  function NextOf(days: seq<Day>, d: nat, p: nat): Slot
    requires d < |days|
  {
    if p + 1 < |days[d].programs| then Slot(d, p + 1)
    else if d + 1 < |days| then Slot(d + 1, 0)
    else Slot(0, 0)
  }

  /**
   * The "Prev" link of (d, p) after both passes: the program before it in
   * (day, program) order, except that the first program of the first day
   * gets the last program of that same day (None when there is one day).
   */
  function PrevOf(days: seq<Day>, d: nat, p: nat): Option<Slot>
    requires AllNonEmpty(days) && d < |days|
  {
    if p > 0 then Some(Slot(d, p - 1))
    else if d > 0 then Some(Slot(d - 1, |days[d - 1].programs| - 1))
    else if |days| > 1 then Some(Slot(0, |days[0].programs| - 1))
    else None
  }

  function WithLinks(base: seq<Day>): (days: seq<Day>)
    requires AllNonEmpty(base)
  {
    seq(|base|, d requires 0 <= d < |base| =>
      Day(base[d].dayType, seq(|base[d].programs|, p requires 0 <= p < |base[d].programs| =>
        base[d].programs[p].(prev := PrevOf(base, d, p), next := Some(NextOf(base, d, p))))))
  }

  /** zone["days"] as get_homes leaves it, or the failure of an empty schedule. */
  function Linked(dd: seq<DeviceDay>): Result<seq<Day>>
    requires ScheduleOrdered(dd)
  {
    var base := Unlinked(dd);
    if AllNonEmpty(base) then Ok(WithLinks(base)) else Err(EmptySchedule)
  }

  /** The same days and programs, links aside. */
  predicate SameSkeleton(days: seq<Day>, base: seq<Day>)
  {
    |days| == |base|
    && (forall i :: 0 <= i < |days| ==>
          days[i].dayType == base[i].dayType && |days[i].programs| == |base[i].programs|)
    && (forall i, q :: 0 <= i < |days| && 0 <= q < |days[i].programs| ==>
          days[i].programs[q].(prev := None, next := None) == base[i].programs[q].(prev := None, next := None))
  }

  function WithPrev(days: seq<Day>, d: nat, p: nat, v: Option<Slot>): (r: seq<Day>)
    requires d < |days| && p < |days[d].programs|
    ensures |r| == |days|
    ensures forall k :: 0 <= k < |r| ==> r[k].dayType == days[k].dayType && |r[k].programs| == |days[k].programs|
    ensures forall k, q :: 0 <= k < |r| && 0 <= q < |r[k].programs| ==>
      r[k].programs[q] == if k == d && q == p then days[k].programs[q].(prev := v) else days[k].programs[q]
  {
    days[d := Day(days[d].dayType, days[d].programs[p := days[d].programs[p].(prev := v)])]
  }

  function WithNext(days: seq<Day>, d: nat, p: nat, v: Option<Slot>): (r: seq<Day>)
    requires d < |days| && p < |days[d].programs|
    ensures |r| == |days|
    ensures forall k :: 0 <= k < |r| ==> r[k].dayType == days[k].dayType && |r[k].programs| == |days[k].programs|
    ensures forall k, q :: 0 <= k < |r| && 0 <= q < |r[k].programs| ==>
      r[k].programs[q] == if k == d && q == p then days[k].programs[q].(next := v) else days[k].programs[q]
  {
    days[d := Day(days[d].dayType, days[d].programs[p := days[d].programs[p].(next := v)])]
  }

  /** Every program but the first of its day is linked to the program before it. */
  predicate InnerPrevLinked(days: seq<Day>)
  {
    forall i, q :: 0 <= i < |days| && 0 < q < |days[i].programs| ==> days[i].programs[q].prev == Some(Slot(i, q - 1))
  }

  predicate PrevLinked(days: seq<Day>, base: seq<Day>)
    requires AllNonEmpty(base)
  {
    forall i, q :: 0 <= i < |days| && i < |base| && 0 <= q < |days[i].programs| ==> days[i].programs[q].prev == PrevOf(base, i, q)
  }

  /**
   * The "pN" loop of the forward pass over one device day at position d:
   * every program collected is linked to the program collected before it,
   * carried in prev across days.
   */
  method CollectDay(periods: seq<Period>, d: nat, prev0: Option<Slot>) returns (progs: seq<Program>, prev: Option<Slot>)
    ensures |progs| == |Collect(periods)|
    ensures forall q :: 0 <= q < |progs| ==> progs[q].(prev := None, next := None) == Collect(periods)[q]
    ensures forall q :: 0 < q < |progs| ==> progs[q].prev == Some(Slot(d, q - 1))
    ensures prev == if |progs| > 0 then Some(Slot(d, |progs| - 1)) else prev0
  {
    progs := [];
    prev := prev0;
    var j := 0;
    while j < |periods|
      invariant 0 <= j <= |periods|
      invariant |progs| == |Collect(periods[..j])|
      invariant forall q :: 0 <= q < |progs| ==> progs[q].(prev := None, next := None) == Collect(periods[..j])[q]
      invariant forall q :: 0 < q < |progs| ==> progs[q].prev == Some(Slot(d, q - 1))
      invariant prev == if |progs| > 0 then Some(Slot(d, |progs| - 1)) else prev0
    {
      assert periods[..j + 1][..j] == periods[..j];
      if periods[j].program.Some? {
        progs := progs + [Program(periods[j].number, periods[j].program.value, prev, None)];
        prev := Some(Slot(d, |progs| - 1));
      }
      j := j + 1;
    }
    assert periods[..j] == periods;
  }

  /** The forward pass: zone["days"] in day-type order, each program linked to its predecessor. */
  method ForwardPass(dd: seq<DeviceDay>) returns (days: seq<Day>)
    requires ScheduleOrdered(dd)
    ensures SameSkeleton(days, Unlinked(dd))
    ensures InnerPrevLinked(days)
  {
    ghost var base := Unlinked(dd);
    days := [];
    var prev: Option<Slot> := None;
    var d := 0;
    while d < |dd|
      invariant 0 <= d <= |dd| && |days| == d
      invariant SameSkeleton(days, base[..d])
      invariant InnerPrevLinked(days)
    {
      var progs;
      progs, prev := CollectDay(dd[d].periods, d, prev);
      assert base[d] == Day(dd[d].dayType.value, Collect(dd[d].periods));
      ForwardStep(days, base, Day(dd[d].dayType.value, progs));
      days := days + [Day(dd[d].dayType.value, progs)];
      d := d + 1;
    }
    assert base[..d] == base;
  }

  /** One step of the forward pass: a day collected with its inner links extends the days. */
  lemma ForwardStep(days: seq<Day>, base: seq<Day>, day: Day)
    requires |days| < |base| && SameSkeleton(days, base[..|days|]) && InnerPrevLinked(days)
    requires day.dayType == base[|days|].dayType && |day.programs| == |base[|days|].programs|
    requires forall q :: 0 <= q < |day.programs| ==>
      day.programs[q].(prev := None, next := None) == base[|days|].programs[q].(prev := None, next := None)
    requires forall q :: 0 < q < |day.programs| ==> day.programs[q].prev == Some(Slot(|days|, q - 1))
    ensures SameSkeleton(days + [day], base[..|days| + 1]) && InnerPrevLinked(days + [day])
  {
    var r := days + [day];
    assert forall i :: 0 <= i < |days| ==> r[i] == days[i] && base[..|days| + 1][i] == base[..|days|][i];
  }

  /**
   * The reverse pass: from the last day down, the first program of each
   * later day is linked to the last program of the day before it, and
   * finally the first program of the first day to the last program of the
   * first day (None when there is one day). An empty day, or no day, fails.
   */
  method ReversePass(days0: seq<Day>, ghost base: seq<Day>) returns (r: Result<seq<Day>>)
    requires SameSkeleton(days0, base) && InnerPrevLinked(days0)
    ensures r.Err? <==> !AllNonEmpty(base)
    ensures r.Err? ==> r.error == EmptySchedule
    ensures r.Ok? ==> SameSkeleton(r.value, base) && PrevLinked(r.value, base)
  {
    var days := days0;
    var last: Option<Slot> := None;
    var first: Option<Slot> := None;
    var k := |days|;
    while k > 0
      invariant 0 <= k <= |days|
      invariant SameSkeleton(days, base) && InnerPrevLinked(days)
      invariant NonEmptyFrom(days, k) && StartsLinkedFrom(days, k)
      invariant last == if k < |days| then Some(Slot(k, 0)) else None
      invariant first == if k + 1 < |days| then Some(Slot(k, |days[k].programs| - 1)) else None
    {
      k := k - 1;
      if |days[k].programs| == 0 {
        assert |base[k].programs| == 0;
        return Err(EmptySchedule);
      }
      if last.Some? {
        first := Some(Slot(k, |days[k].programs| - 1));
        ReverseStep(days, base, k);
        days := WithPrev(days, k + 1, 0, first);
      }
      last := Some(Slot(k, 0));
    }
    if last.None? {
      return Err(EmptySchedule);
    }
    ReverseFinish(days, base, first);
    days := WithPrev(days, 0, 0, first);
    r := Ok(days);
  }

  /** Every day from position k on has a program. */
  predicate NonEmptyFrom(days: seq<Day>, k: nat)
  {
    forall i :: k <= i < |days| ==> |days[i].programs| > 0
  }

  /** Every day after position k starts with a link to the last program of the day before. */
  predicate StartsLinkedFrom(days: seq<Day>, k: nat)
  {
    forall i :: k < i < |days| && |days[i].programs| > 0 && |days[i - 1].programs| > 0 ==>
      days[i].programs[0].prev == Some(Slot(i - 1, |days[i - 1].programs| - 1))
  }

  /** One step of the reverse loop: the first program of day k + 1 is linked to the last of day k. */
  lemma ReverseStep(days: seq<Day>, base: seq<Day>, k: nat)
    requires SameSkeleton(days, base) && InnerPrevLinked(days)
    requires k + 1 < |days| && NonEmptyFrom(days, k) && StartsLinkedFrom(days, k + 1)
    ensures var r := WithPrev(days, k + 1, 0, Some(Slot(k, |days[k].programs| - 1)));
      SameSkeleton(r, base) && InnerPrevLinked(r) && NonEmptyFrom(r, k) && StartsLinkedFrom(r, k)
      && |r[k].programs| == |days[k].programs|
  {
    var r := WithPrev(days, k + 1, 0, Some(Slot(k, |days[k].programs| - 1)));
    assert forall i :: 0 <= i < |days| && i != k + 1 ==> r[i] == days[i];
  }

  /** The end of the reverse pass: the first program of the week gets its Prev, and every link is PrevOf. */
  lemma ReverseFinish(days: seq<Day>, base: seq<Day>, first: Option<Slot>)
    requires SameSkeleton(days, base) && InnerPrevLinked(days)
    requires |days| > 0 && NonEmptyFrom(days, 0) && StartsLinkedFrom(days, 0)
    requires first == if 1 < |days| then Some(Slot(0, |days[0].programs| - 1)) else None
    ensures AllNonEmpty(base)
    ensures var r := WithPrev(days, 0, 0, first);
      SameSkeleton(r, base) && PrevLinked(r, base)
  {
    assert AllNonEmpty(base);
    var r := WithPrev(days, 0, 0, first);
    assert forall i :: 0 < i < |days| ==> r[i] == days[i];
    forall i, q | 0 <= i < |r| && i < |base| && 0 <= q < |r[i].programs|
      ensures r[i].programs[q].prev == PrevOf(base, i, q)
    {
      if i > 0 && q == 0 {
        assert r[i] == days[i];
      }
    }
  }

  /** The last pass: from the end of the week backwards, every program is linked to the one after it. */
  method NextPass(days0: seq<Day>, ghost base: seq<Day>) returns (days: seq<Day>)
    requires AllNonEmpty(base) && SameSkeleton(days0, base) && PrevLinked(days0, base)
    ensures SameSkeleton(days, base) && PrevLinked(days, base)
    ensures forall i, q :: 0 <= i < |days| && 0 <= q < |days[i].programs| ==> days[i].programs[q].next == Some(NextOf(base, i, q))
  {
    days := days0;
    var next := Slot(0, 0);
    var k := |days|;
    while k > 0
      invariant 0 <= k <= |days|
      invariant SameSkeleton(days, base) && PrevLinked(days, base)
      invariant forall i, q :: k <= i < |days| && 0 <= q < |days[i].programs| ==> days[i].programs[q].next == Some(NextOf(base, i, q))
      invariant next == if k < |days| then Slot(k, 0) else Slot(0, 0)
    {
      k := k - 1;
      var p := |days[k].programs|;
      while p > 0
        invariant k < |days| && 0 <= p <= |days[k].programs|
        invariant SameSkeleton(days, base) && PrevLinked(days, base)
        invariant forall i, q :: k < i < |days| && 0 <= q < |days[i].programs| ==> days[i].programs[q].next == Some(NextOf(base, i, q))
        invariant forall q :: p <= q < |days[k].programs| ==> days[k].programs[q].next == Some(NextOf(base, k, q))
        invariant next == if p < |days[k].programs| then Slot(k, p) else if k + 1 < |days| then Slot(k + 1, 0) else Slot(0, 0)
      {
        p := p - 1;
        NextStep(days, base, k, p, Some(next));
        days := WithNext(days, k, p, Some(next));
        next := Slot(k, p);
      }
    }
  }

  /** One step of the last pass: only the Next of (k, p) changes. */
  lemma NextStep(days: seq<Day>, base: seq<Day>, k: nat, p: nat, v: Option<Slot>)
    requires AllNonEmpty(base) && SameSkeleton(days, base) && PrevLinked(days, base)
    requires k < |days| && p < |days[k].programs|
    ensures var r := WithNext(days, k, p, v);
      SameSkeleton(r, base) && PrevLinked(r, base) && r[k].programs[p].next == v
      && (forall i :: 0 <= i < |days| && i != k ==> r[i] == days[i])
      && |r[k].programs| == |days[k].programs|
      && (forall q :: 0 <= q < |days[k].programs| && q != p ==> r[k].programs[q] == days[k].programs[q])
  {
    var r := WithNext(days, k, p, v);
    assert forall i :: 0 <= i < |days| && i != k ==> r[i] == days[i];
  }

  /** The three passes of get_homes over one zone's device days. */
  method LinkDays(dd: seq<DeviceDay>) returns (r: Result<seq<Day>>)
    requires ScheduleOrdered(dd)
    ensures r == Linked(dd)
  {
    ghost var base := Unlinked(dd);
    var days := ForwardPass(dd);
    var back := ReversePass(days, base);
    if back.Err? {
      return Err(back.error);
    }
    days := NextPass(back.value, base);
    ghost var spec := WithLinks(base);
    forall i | 0 <= i < |days| ensures days[i] == spec[i] {
      forall q | 0 <= q < |days[i].programs| ensures days[i].programs[q] == spec[i].programs[q] {
        assert days[i].programs[q].(prev := None, next := None) == base[i].programs[q].(prev := None, next := None);
      }
      assert days[i].programs == spec[i].programs;
    }
    assert days == spec;
    r := Ok(days);
  }

  /** The number of programs in the days before position d. */
  function Offset(days: seq<Day>, d: nat): nat
    requires d <= |days|
  {
    if d == 0 then 0 else Offset(days, d - 1) + |days[d - 1].programs|
  }

  /** The number of programs in the week. */
  function Total(days: seq<Day>): nat { Offset(days, |days|) }

  /** The position of a program in (day, program) order over the whole week. */
  function RankOf(days: seq<Day>, s: Slot): nat
    requires s.day < |days|
  {
    Offset(days, s.day) + s.pos
  }

  lemma {:induction false} OffsetGrows(days: seq<Day>, d: nat, e: nat)
    requires d < e <= |days|
    ensures Offset(days, d) + |days[d].programs| <= Offset(days, e)
    decreases e
  {
    if e > d + 1 {
      OffsetGrows(days, d, e - 1);
    }
  }

  /** Every slot of the week has a rank below the number of programs. */
  lemma RankBelowTotal(days: seq<Day>, s: Slot)
    requires ValidSlot(days, s)
    ensures RankOf(days, s) < Total(days)
  {
    OffsetGrows(days, s.day, |days|);
  }

  /**
   * Next links follow (day type, program number) order: the program after
   * a slot has the next rank, and the last program of the week wraps to
   * the first.
   */
  lemma NextFollowsOrder(days: seq<Day>, s: Slot)
    requires AllNonEmpty(days) && ValidSlot(days, s)
    ensures ValidSlot(days, NextOf(days, s.day, s.pos))
    ensures RankOf(days, NextOf(days, s.day, s.pos)) == (RankOf(days, s) + 1) % Total(days)
  {
    var n := NextOf(days, s.day, s.pos);
    if s.pos + 1 < |days[s.day].programs| {
      RankBelowTotal(days, n);
      assert RankOf(days, n) == RankOf(days, s) + 1;
      ModBelow(RankOf(days, n), Total(days));
    } else if s.day + 1 < |days| {
      RankBelowTotal(days, n);
      assert RankOf(days, n) == RankOf(days, s) + 1;
      ModBelow(RankOf(days, n), Total(days));
    } else {
      assert RankOf(days, s) + 1 == Total(days);
      assert RankOf(days, n) == 0;
      ModSelf(Total(days));
    }
  }

  lemma ModBelow(a: nat, m: nat)
    requires a < m
    ensures a % m == a
  {
  }

  lemma ModSelf(m: nat)
    requires m > 0
    ensures m % m == 0
  {
  }

  /** Prev links point to the program of the rank before, for every program but the first of the week. */
  lemma PrevFollowsOrder(days: seq<Day>, s: Slot)
    requires AllNonEmpty(days) && ValidSlot(days, s) && RankOf(days, s) > 0
    ensures PrevOf(days, s.day, s.pos).Some?
    ensures ValidSlot(days, PrevOf(days, s.day, s.pos).value)
    ensures RankOf(days, PrevOf(days, s.day, s.pos).value) == RankOf(days, s) - 1
  {
  }

  /**
   * The first program of the week is the one exception: with several days
   * its Prev is the last program of the first day, which is not the program
   * whose Next wraps to it (the last program of the last day); with one day
   * it has no Prev.
   */
  lemma WeekStartPrev(days: seq<Day>)
    requires AllNonEmpty(days)
    ensures |days| == 1 ==> PrevOf(days, 0, 0) == None
    ensures |days| > 1 ==> PrevOf(days, 0, 0) == Some(Slot(0, |days[0].programs| - 1))
    ensures |days| > 1 ==> RankOf(days, PrevOf(days, 0, 0).value) + 1 < Total(days)
    ensures var last := Slot(|days| - 1, |days[|days| - 1].programs| - 1);
      NextOf(days, last.day, last.pos) == Slot(0, 0)
  {
    if |days| > 1 {
      OffsetGrows(days, 1, |days|);
    }
  }

  /**
   * What get_homes leaves in zone["days"]: a failure exactly when there is
   * no day or a day without programs; otherwise the days in order with
   * their collected programs, and every link as NextOf and PrevOf say.
   */
  lemma LinkedDays(dd: seq<DeviceDay>)
    requires ScheduleOrdered(dd)
    ensures Linked(dd).Err? <==> |dd| == 0 || exists k :: 0 <= k < |dd| && |Collect(dd[k].periods)| == 0
    ensures Linked(dd).Ok? ==> var days := Linked(dd).value;
      AllNonEmpty(days) && |days| == |dd|
      && (forall k :: 0 <= k < |dd| ==> days[k].dayType == dd[k].dayType.value && |days[k].programs| == |Collect(dd[k].periods)|)
      && (forall k, q :: 0 <= k < |dd| && 0 <= q < |days[k].programs| ==>
            days[k].programs[q] == Collect(dd[k].periods)[q].(prev := PrevOf(days, k, q), next := Some(NextOf(days, k, q))))
  {
    var base := Unlinked(dd);
    if AllNonEmpty(base) {
      var days := WithLinks(base);
      forall k | 0 <= k < |dd| ensures |days[k].programs| == |Collect(dd[k].periods)| > 0 {
        assert base[k].programs == Collect(dd[k].periods);
      }
    } else if |dd| > 0 {
      var k :| 0 <= k < |base| && |base[k].programs| == 0;
      assert |Collect(dd[k].periods)| == 0;
    }
  }

  /** Every link get_homes sets names a program of the same zone. */
  lemma LinksInRange(dd: seq<DeviceDay>, s: Slot)
    requires ScheduleOrdered(dd) && Linked(dd).Ok? && ValidSlot(Linked(dd).value, s)
    ensures var p := Linked(dd).value[s.day].programs[s.pos];
      p.next.Some? && ValidSlot(Linked(dd).value, p.next.value)
      && (p.prev.Some? ==> ValidSlot(Linked(dd).value, p.prev.value))
  {
    LinkedDays(dd);
    var days := Linked(dd).value;
    NextFollowsOrder(days, s);
    if RankOf(days, s) > 0 {
      PrevFollowsOrder(days, s);
    } else {
      WeekStartPrev(days);
    }
  }
}
