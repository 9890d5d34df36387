/**
 * One scan of `scheduler_loop` (bot_manager.py): which stored definitions are
 * due at the current minute.  The clock is an input: `now` is the `"%H:%M"`
 * string and `today` the `"%A"` weekday name.
 */
module Scheduler {
  import opened Basics
  import opened MessageStore

  /** The outcome of the `should_send` test for one definition. */
  datatype Verdict =
    | Due
    | NotDue
    | KeyMissing   // the schedule mapping lacks a key the test reads: KeyError

  /**
   * `should_send` for one definition, with Python's short-circuit order of
   * evaluation: a key is read only when the test gets that far.
   */
  function CheckSchedule(schedule: Option<Schedule>, now: string, today: string): Verdict
  {
    match schedule
    case None => NotDue
    case Some(m) =>
      if m == map[] then NotDue
      else if "type" !in m then KeyMissing
      else if m["type"] == "daily" then
        if "time" !in m then KeyMissing
        else if m["time"] == now then Due
        else NotDue
      else if m["type"] == "weekly" then
        if "time" !in m then KeyMissing
        else if m["time"] != now then NotDue
        else if "day" !in m then KeyMissing
        else if m["day"] == today then Due
        else NotDue
      else NotDue
  }

  /** The firing rule, stated declaratively. */
  ghost predicate FiresAt(schedule: Option<Schedule>, now: string, today: string)
  {
    && schedule.Some?
    && var m := schedule.value;
    && "type" in m && "time" in m && m["time"] == now
    && (m["type"] == "daily" || (m["type"] == "weekly" && "day" in m && m["day"] == today))
  }

  /**
   * A definition is due exactly when its schedule is non-empty and either is
   * daily at this minute or weekly at this minute and weekday; absent, null
   * or empty schedules and unknown types are never due.
   */
  lemma DueIffFires(schedule: Option<Schedule>, now: string, today: string)
    ensures CheckSchedule(schedule, now, today) == Due <==> FiresAt(schedule, now, today)
    ensures schedule.None? || schedule == Some(map[]) ==> CheckSchedule(schedule, now, today) == NotDue
    ensures (schedule.Some? && "type" in schedule.value && schedule.value["type"] !in ["daily", "weekly"])
              ==> CheckSchedule(schedule, now, today) == NotDue
  {
    if schedule.Some? && FiresAt(schedule, now, today) {
      assert schedule.value != map[] by {
        assert "type" in schedule.value;
      }
    }
  }

  /**
   * A schedule the test can read at any minute and weekday: none, empty, or
   * a mapping with a `type` and, for a daily or weekly one, a `time`, and for
   * a weekly one also a `day`.
   */
  predicate Readable(schedule: Option<Schedule>)
  {
    || schedule.None?
    || schedule.value == map[]
    || (var m := schedule.value;
        && "type" in m
        && (m["type"] == "daily" || m["type"] == "weekly" ==> "time" in m)
        && (m["type"] == "weekly" ==> "day" in m))
  }

  /** A schedule never raises a KeyError in the test exactly when it is readable. */
  lemma ReadableNeverKeyMissing(schedule: Option<Schedule>)
    ensures Readable(schedule) <==> forall now, today :: CheckSchedule(schedule, now, today) != KeyMissing
  {
    if !Readable(schedule) {
      var m := schedule.value;
      var now := if "time" in m then m["time"] else "";
      assert CheckSchedule(schedule, now, "") == KeyMissing;
    }
  }

  /** The result of one scan: the ids dispatched, in order, and whether a KeyError ended the scan. */
  datatype Scan = Scan(due: seq<string>, aborted: bool)

  /** `for msg_id, data in messages.items(): ...` over the ids in store order. */
  function ScanIds(ids: seq<string>, defs: map<string, Definition>, now: string, today: string): (r: Scan)
    requires forall i :: 0 <= i < |ids| ==> ids[i] in defs
    ensures |r.due| <= |ids|
  {
    if ids == [] then Scan([], false)
    else
      match CheckSchedule(defs[ids[0]].schedule, now, today)
      case KeyMissing => Scan([], true)
      case Due =>
        var rest := ScanIds(ids[1..], defs, now, today);
        Scan([ids[0]] + rest.due, rest.aborted)
      case NotDue => ScanIds(ids[1..], defs, now, today)
  }

  /** One scan of the whole store. */
  function ScanStore(s: Store, now: string, today: string): Scan
    requires s.Valid()
  {
    ScanIds(s.ids, s.defs, now, today)
  }

  /** `sub` is `xs` with some elements left out, the rest in their order. */
  predicate IsSubsequence(sub: seq<string>, xs: seq<string>)
  {
    if sub == [] then true
    else if xs == [] then false
    else if sub[0] == xs[0] then IsSubsequence(sub[1..], xs[1..])
    else IsSubsequence(sub, xs[1..])
  }

  predicate WellFormed(ids: seq<string>, defs: map<string, Definition>, now: string, today: string)
    requires forall i :: 0 <= i < |ids| ==> ids[i] in defs
  {
    forall i :: 0 <= i < |ids| ==> CheckSchedule(defs[ids[i]].schedule, now, today) != KeyMissing
  }

  /**
   * When no schedule lacks a key the test reads, the scan runs to the end
   * and dispatches exactly the due definitions, in store order.
   */
  lemma {:induction false} ScanDispatchesDueInOrder(ids: seq<string>, defs: map<string, Definition>, now: string, today: string)
    requires forall i :: 0 <= i < |ids| ==> ids[i] in defs
    requires WellFormed(ids, defs, now, today)
    ensures !ScanIds(ids, defs, now, today).aborted
    ensures IsSubsequence(ScanIds(ids, defs, now, today).due, ids)
    ensures forall id :: id in ScanIds(ids, defs, now, today).due <==>
              id in ids && CheckSchedule(defs[id].schedule, now, today) == Due
  {
    if ids != [] {
      ScanDispatchesDueInOrder(ids[1..], defs, now, today);
      var rest := ScanIds(ids[1..], defs, now, today);
      assert CheckSchedule(defs[ids[0]].schedule, now, today) != KeyMissing;
      assert forall id :: id in ids <==> id == ids[0] || id in ids[1..];
      if CheckSchedule(defs[ids[0]].schedule, now, today) == Due {
        assert ([ids[0]] + rest.due)[1..] == rest.due;
      } else {
        SubsequenceSkip(rest.due, ids);
      }
    }
  }

  lemma SubsequenceSkip(sub: seq<string>, xs: seq<string>)
    requires xs != [] && IsSubsequence(sub, xs[1..])
    ensures IsSubsequence(sub, xs)
  {
    if sub != [] && sub[0] == xs[0] {
      SubsequenceTail(sub, xs[1..]);
    }
  }

  lemma {:induction false} SubsequenceTail(sub: seq<string>, xs: seq<string>)
    requires sub != [] && IsSubsequence(sub, xs)
    ensures IsSubsequence(sub[1..], xs)
  {
    if xs != [] {
      if sub[0] == xs[0] {
        if sub[1..] != [] {
          SubsequenceTail(sub[1..], xs[1..]);
          SubsequenceSkip(sub[1..], xs);
        }
      } else {
        SubsequenceTail(sub, xs[1..]);
        SubsequenceSkip(sub[1..], xs);
      }
    }
  }

  /**
   * A schedule that lacks a key the test reads ends the scan: the
   * definitions before it have been dispatched, none after it are.
   */
  lemma {:induction false} ScanStopsAtMissingKey(ids: seq<string>, defs: map<string, Definition>, now: string, today: string, k: nat)
    requires forall i :: 0 <= i < |ids| ==> ids[i] in defs
    requires k < |ids| && WellFormed(ids[..k], defs, now, today)
    requires CheckSchedule(defs[ids[k]].schedule, now, today) == KeyMissing
    ensures ScanIds(ids, defs, now, today) == Scan(ScanIds(ids[..k], defs, now, today).due, true)
  {
    if k > 0 {
      assert ids[1..][..k - 1] == ids[..k][1..];
      assert CheckSchedule(defs[ids[..k][0]].schedule, now, today) != KeyMissing;
      ScanStopsAtMissingKey(ids[1..], defs, now, today, k - 1);
    }
  }
}
