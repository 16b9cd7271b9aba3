/**
  The activity timeline and its retention (kontiki/registry/server/delegates/activity_tracking.py):
  a purge that cuts a prefix, where the retention policy speaks of every item.
 */
module ActivityTracking {
  type Time = int

  const MINUTE: int := 60_000_000

  /** The timestamp of an item: missing, text that is no date, a date, or a value no date compares with. */
  datatype Stamp = Missing | Unparsable | At(time: Time) | Incomparable

  datatype Item = Item(stamp: Stamp, content: string)

  /** The item counts as expired when everything up to limit is. */
  predicate Expired(item: Item, limit: Time) {
    item.stamp.Missing? || item.stamp.Unparsable? || (item.stamp.At? && item.stamp.time <= limit)
  }

  predicate Fresh(item: Item, limit: Time) {
    item.stamp.At? && item.stamp.time > limit
  }

  /** Where the scan stops: at the first item that is not expired. */
  function Cutoff(items: seq<Item>, limit: Time): (c: nat)
    ensures c <= |items|
    ensures forall i | 0 <= i < c :: Expired(items[i], limit)
    ensures c < |items| ==> !Expired(items[c], limit)
  {
    if |items| == 0 || !Expired(items[0], limit) then 0 else 1 + Cutoff(items[1..], limit)
  }

  /** The scan meets an item whose timestamp cannot be compared before any fresh one. */
  predicate Stuck(items: seq<Item>, limit: Time) {
    Cutoff(items, limit) < |items| && items[Cutoff(items, limit)].stamp.Incomparable?
  }

  /** What a purge leaves; one that raises removes nothing. */
  function Purge(items: seq<Item>, limit: Time): seq<Item> {
    if Stuck(items, limit) then items else items[Cutoff(items, limit)..]
  }

  /** The retention policy: every item that is not expired. */
  function Unexpired(items: seq<Item>, limit: Time): seq<Item> {
    if |items| == 0 then []
    else Unexpired(items[..|items| - 1], limit) +
         if Expired(items[|items| - 1], limit) then [] else [items[|items| - 1]]
  }

  lemma {:induction false} CutoffIs(items: seq<Item>, limit: Time, c: nat)
    requires c <= |items| && forall i | 0 <= i < c :: Expired(items[i], limit)
    requires c < |items| ==> !Expired(items[c], limit)
    ensures Cutoff(items, limit) == c
  {
    if c > 0 {
      CutoffIs(items[1..], limit, c - 1);
    }
  }

  // ---------------------------------------------------------------------------------------------
  // Interleaved appends and purges
  // ---------------------------------------------------------------------------------------------

  datatype Op = Append(item: Item) | PurgeAt(limit: Time)

  function Exec(run: seq<Op>): seq<Item> {
    if |run| == 0 then []
    else
      match run[|run| - 1]
      case Append(item) => Exec(run[..|run| - 1]) + [item]
      case PurgeAt(limit) => Purge(Exec(run[..|run| - 1]), limit)
  }

  /** Everything ever appended. */
  function Appended(run: seq<Op>): seq<Item> {
    if |run| == 0 then []
    else Appended(run[..|run| - 1]) + if run[|run| - 1].Append? then [run[|run| - 1].item] else []
  }

  /** The clock does not go back between purges, and stays below end. */
  ghost predicate Monotone(run: seq<Op>, end: Time) {
    && (forall i, j | 0 <= i < j < |run| && run[i].PurgeAt? && run[j].PurgeAt? :: run[i].limit <= run[j].limit)
    && (forall i | 0 <= i < |run| && run[i].PurgeAt? :: run[i].limit <= end)
  }

  /** A purge of a list that lacks an expired prefix lacks a longer one. */
  lemma PurgeOfSuffix(all: seq<Item>, before: nat, limit: Time, end: Time) returns (removed: nat)
    requires before <= |all| && forall i | 0 <= i < before :: Expired(all[i], end)
    requires limit <= end
    ensures removed <= |all| && Purge(all[before..], limit) == all[removed..]
    ensures forall i | 0 <= i < removed :: Expired(all[i], end)
  {
    var rest := all[before..];
    if Stuck(rest, limit) {
      return before;
    }
    var c := Cutoff(rest, limit);
    removed := before + c;
    assert rest[c..] == all[removed..];
    forall i | before <= i < removed ensures Expired(all[i], end) {
      assert Expired(rest[i - before], limit);
    }
  }

  /** The list is everything appended without a prefix, all of it expired at the end. */
  lemma {:induction false} RemovedPrefix(run: seq<Op>, end: Time) returns (removed: nat)
    requires Monotone(run, end)
    ensures removed <= |Appended(run)| && Exec(run) == Appended(run)[removed..]
    ensures forall i | 0 <= i < removed :: Expired(Appended(run)[i], end)
  {
    hide Purge, Expired;
    if |run| == 0 {
      removed := 0;
    } else {
      var init, last := run[..|run| - 1], run[|run| - 1];
      removed := RemovedPrefix(init, end);
      var all := Appended(init);
      match last
      case Append(item) =>
        assert Appended(run)[removed..] == all[removed..] + [item];
      case PurgeAt(limit) =>
        assert Appended(run) == all;
        removed := PurgeOfSuffix(all, removed, limit, end);
    }
  }

  /** Leaving out an expired prefix does not change where the scan stops. */
  lemma CutoffAfterPrefix(all: seq<Item>, removed: nat, limit: Time)
    requires removed <= |all| && forall i | 0 <= i < removed :: Expired(all[i], limit)
    ensures Cutoff(all, limit) == removed + Cutoff(all[removed..], limit)
  {
    var rest := all[removed..];
    var c := Cutoff(rest, limit);
    forall i | 0 <= i < removed + c ensures Expired(all[i], limit) {
      if i >= removed {
        assert all[i] == rest[i - removed];
      }
    }
    CutoffIs(all, limit, removed + c);
  }

  /**
    However appends and purges interleaved, a final purge leaves what one purge of everything ever
    appended leaves, exactly when that scan meets no incomparable timestamp or no earlier purge
    removed anything. A scan that meets one removes nothing.
   */
  lemma PurgesAreOnePurge(run: seq<Op>, limit: Time)
    requires Monotone(run, limit)
    ensures var after, all := Exec(run + [PurgeAt(limit)]), Appended(run);
            && (after == Purge(all, limit) <==> !Stuck(all, limit) || |Exec(run)| == |all|)
            && (Stuck(all, limit) ==> after == Exec(run))
  {
    var all := Appended(run);
    assert (run + [PurgeAt(limit)])[..|run|] == run;
    var removed := RemovedPrefix(run, limit);
    CutoffAfterPrefix(all, removed, limit);
    assert all[removed..][Cutoff(all[removed..], limit)..] == all[Cutoff(all, limit)..];
  }

  /** No purge removes a fresh item. */
  lemma FreshStays(items: seq<Item>, limit: Time, i: nat)
    requires i < |items| && Fresh(items[i], limit)
    ensures |items| - |Purge(items, limit)| <= i
    ensures Purge(items, limit)[i - (|items| - |Purge(items, limit)|)] == items[i]
  {
    assert !Expired(items[i], limit);
  }

  lemma {:induction false} UnexpiredConcat(a: seq<Item>, b: seq<Item>, limit: Time)
    ensures Unexpired(a + b, limit) == Unexpired(a, limit) + Unexpired(b, limit)
  {
    if |b| == 0 {
      assert a + b == a;
    } else {
      assert (a + b)[..|a + b| - 1] == a + b[..|b| - 1];
      UnexpiredConcat(a, b[..|b| - 1], limit);
    }
  }

  lemma {:induction false} UnexpiredAll(items: seq<Item>, limit: Time, expired: bool)
    requires forall i | 0 <= i < |items| :: Expired(items[i], limit) == expired
    ensures Unexpired(items, limit) == if expired then [] else items
  {
    if |items| > 0 {
      UnexpiredAll(items[..|items| - 1], limit, expired);
    }
  }

  /** In a dated list in order, nothing after an unexpired item is expired. */
  lemma NothingExpiredAfter(items: seq<Item>, limit: Time)
    requires forall i | 0 <= i < |items| :: items[i].stamp.At?
    requires forall i, j | 0 <= i < j < |items| :: items[i].stamp.time <= items[j].stamp.time
    ensures forall i | Cutoff(items, limit) <= i < |items| :: !Expired(items[i], limit)
  {
    var c := Cutoff(items, limit);
    forall i | c <= i < |items| ensures !Expired(items[i], limit) {
      assert i == c || items[c].stamp.time <= items[i].stamp.time;
    }
  }

  /** When every item is dated and the dates ascend, the prefix purge is the retention policy. */
  lemma PurgeIsPolicy(items: seq<Item>, limit: Time)
    requires forall i | 0 <= i < |items| :: items[i].stamp.At?
    requires forall i, j | 0 <= i < j < |items| :: items[i].stamp.time <= items[j].stamp.time
    ensures Purge(items, limit) == Unexpired(items, limit)
  {
    hide Unexpired, Expired;
    var c := Cutoff(items, limit);
    assert !Stuck(items, limit);
    NothingExpiredAfter(items, limit);
    assert items == items[..c] + items[c..];
    UnexpiredConcat(items[..c], items[c..], limit);
    UnexpiredAll(items[..c], limit, true);
    UnexpiredAll(items[c..], limit, false);
  }

  /**
    With dates out of order by at most slack, every dated survivor is newer than limit - slack, unless
    the scan meets an incomparable timestamp: then nothing is removed, and an older item stays.
   */
  lemma SurvivorsRecent(items: seq<Item>, limit: Time, slack: nat)
    requires forall i, j | 0 <= i < j < |items| && items[i].stamp.At? && items[j].stamp.At? ::
               items[i].stamp.time <= items[j].stamp.time + slack
    ensures (forall item | item in Purge(items, limit) && item.stamp.At? :: item.stamp.time > limit - slack) <==>
            !Stuck(items, limit) || forall item | item in items && item.stamp.At? :: item.stamp.time > limit - slack
  {
    if !Stuck(items, limit) {
      UnstuckSurvivors(items, limit, slack);
    }
  }

  lemma UnstuckSurvivors(items: seq<Item>, limit: Time, slack: nat)
    requires !Stuck(items, limit)
    requires forall i, j | 0 <= i < j < |items| && items[i].stamp.At? && items[j].stamp.At? ::
               items[i].stamp.time <= items[j].stamp.time + slack
    ensures forall item | item in Purge(items, limit) && item.stamp.At? :: item.stamp.time > limit - slack
  {
    var c := Cutoff(items, limit);
    forall item | item in items[c..] && item.stamp.At? ensures item.stamp.time > limit - slack {
      var j :| 0 <= j < |items[c..]| && items[c..][j] == item;
      assert items[c + j] == item;
      assert j == 0 || items[c].stamp.time <= items[c + j].stamp.time + slack;
    }
  }

  // ---------------------------------------------------------------------------------------------
  // The tracker
  // ---------------------------------------------------------------------------------------------

  const EXCEPTION_RECORDED := "registry.exception.recorded"

  class ActivityTracker {
    const ttlMinutes: int
    var events: seq<Item>
    var exceptions: seq<Item>
    ghost var eventRun: seq<Op>
    ghost var exceptionRun: seq<Op>

    /** Both lists are what the appends and purges so far left. */
    ghost predicate Valid()
      reads this
    {
      events == Exec(eventRun) && exceptions == Exec(exceptionRun)
    }

    /** Items dated up to here have outlived their retention. */
    function Limit(now: Time): Time {
      now - ttlMinutes * MINUTE
    }

    /** Dated less than the retention time ago. */
    predicate Young(item: Item, now: Time) {
      item.stamp.At? && now - item.stamp.time < ttlMinutes * 60 * 1_000_000
    }

    /** Without a date, or dated the retention time ago or longer. */
    predicate Outlived(item: Item, now: Time) {
      item.stamp.Missing? || item.stamp.Unparsable? || (item.stamp.At? && !Young(item, now))
    }

    constructor (ttlMinutes: int)
      ensures Valid()
      ensures eventRun == [] && exceptionRun == [] && this.ttlMinutes == ttlMinutes
    {
      this.ttlMinutes := ttlMinutes;
      events, exceptions := [], [];
      eventRun, exceptionRun := [], [];
    }

    /** An item joins the timeline. */
    method AppendEvent(item: Item)
      requires Valid()
      modifies this`events, this`eventRun
      ensures Valid() && eventRun == old(eventRun) + [Append(item)]
      ensures Appended(eventRun) == old(Appended(eventRun)) + [item]
    {
      AppendRun(eventRun, item);
      events, eventRun := events + [item], eventRun + [Append(item)];
    }

    /** _handle_event: exception records stay out of the timeline. */
    method HandleEvent(eventType: string, item: Item)
      requires Valid()
      modifies this`events, this`eventRun
      ensures Valid()
      ensures eventRun == old(eventRun) + if eventType == EXCEPTION_RECORDED then [] else [Append(item)]
    {
      if eventType == EXCEPTION_RECORDED {
        return;
      }
      AppendEvent(item);
    }

    /** _handle_context. */
    method HandleContext(item: Item)
      requires Valid()
      modifies this`events, this`eventRun
      ensures Valid() && eventRun == old(eventRun) + [Append(item)]
      ensures Appended(eventRun) == old(Appended(eventRun)) + [item]
    {
      AppendEvent(item);
    }

    /** _handle_exception. */
    method HandleException(item: Item)
      requires Valid()
      modifies this`exceptions, this`exceptionRun
      ensures Valid() && exceptionRun == old(exceptionRun) + [Append(item)]
      ensures Appended(exceptionRun) == old(Appended(exceptionRun)) + [item]
    {
      AppendRun(exceptionRun, item);
      exceptions, exceptionRun := exceptions + [item], exceptionRun + [Append(item)];
    }

    /** _purge_expired on one of the lists. */
    method PurgeExpired(items: seq<Item>, now: Time) returns (kept: seq<Item>, raised: bool)
      ensures kept == Purge(items, Limit(now))
      ensures raised <==> Stuck(items, Limit(now))
      ensures |kept| <= |items| && kept == items[|items| - |kept|..]
      ensures forall i | 0 <= i < |items| - |kept| :: Outlived(items[i], now)
      ensures !raised && kept != [] ==> kept[0].stamp.At? && Young(kept[0], now)
    {
      var limit := Limit(now);
      var cutoff, index := 0, 0;
      while index < |items| && Expired(items[index], limit)
        invariant cutoff == index <= |items|
        invariant forall i | 0 <= i < cutoff :: Expired(items[i], limit)
      {
        cutoff := index + 1;
        index := index + 1;
      }
      CutoffIs(items, limit, cutoff);
      if index < |items| && items[index].stamp.Incomparable? {
        return items, true;
      }
      return items[cutoff..], false;
    }

    lemma KeepsYoung(items: seq<Item>, now: Time)
      ensures forall item | Young(item, now) && item in items :: item in Purge(items, Limit(now))
    {
      hide Purge;
      forall item | Young(item, now) && item in items ensures item in Purge(items, Limit(now)) {
        var i :| 0 <= i < |items| && items[i] == item;
        FreshStays(items, Limit(now), i);
      }
    }

    /**
      One round of _cleanup; when the purge of the timeline raises, the exceptions are not purged.
      However appends and rounds interleaved before it, when the clock never went back the timeline is
      what one purge of everything ever appended leaves, unless that purge meets an incomparable
      timestamp after an earlier one removed something. So are the exceptions, when they are purged.
     */
    method Cleanup(now: Time)
      requires Valid()
      modifies this
      ensures Valid()
      ensures var limit, raised := Limit(now), Stuck(old(events), Limit(now));
              && eventRun == old(eventRun) + [PurgeAt(limit)] && events == Purge(old(events), limit)
              && exceptionRun == (if raised then old(exceptionRun) else old(exceptionRun) + [PurgeAt(limit)])
              && exceptions == (if raised then old(exceptions) else Purge(old(exceptions), limit))
      ensures forall item | Young(item, now) && item in old(events) :: item in events
      ensures forall item | Young(item, now) && item in old(exceptions) :: item in exceptions
      ensures var limit, all := Limit(now), Appended(old(eventRun));
              Monotone(old(eventRun), limit) ==>
                && Appended(eventRun) == all && (Stuck(old(events), limit) <==> Stuck(all, limit))
                && (events == Purge(all, limit) <==> !Stuck(all, limit) || |old(events)| == |all|)
      ensures var limit, all := Limit(now), Appended(old(exceptionRun));
              Monotone(old(exceptionRun), limit) && !Stuck(old(events), limit) ==>
                && Appended(exceptionRun) == all
                && (exceptions == Purge(all, limit) <==> !Stuck(all, limit) || |old(exceptions)| == |all|)
    {
      hide Purge, Exec, Appended, Stuck, Monotone;
      ghost var limit := Limit(now);
      PurgeRun(eventRun, limit);
      PurgeRun(exceptionRun, limit);
      if Monotone(eventRun, limit) {
        PurgesAreOnePurge(eventRun, limit);
        StuckAlike(eventRun, limit);
      }
      if Monotone(exceptionRun, limit) {
        PurgesAreOnePurge(exceptionRun, limit);
      }
      KeepsYoung(events, now);
      KeepsYoung(exceptions, now);
      var raised;
      events, raised := PurgeExpired(events, now);
      eventRun := eventRun + [PurgeAt(limit)];
      if !raised {
        exceptions, raised := PurgeExpired(exceptions, now);
        exceptionRun := exceptionRun + [PurgeAt(limit)];
      }
    }
  }

  lemma AppendRun(run: seq<Op>, item: Item)
    ensures var longer := run + [Append(item)];
            Exec(longer) == Exec(run) + [item] && Appended(longer) == Appended(run) + [item]
  {
    assert (run + [Append(item)])[..|run|] == run;
  }

  lemma PurgeRun(run: seq<Op>, limit: Time)
    ensures var longer := run + [PurgeAt(limit)];
            Exec(longer) == Purge(Exec(run), limit) && Appended(longer) == Appended(run)
  {
    assert (run + [PurgeAt(limit)])[..|run|] == run;
  }

  /** What was purged before is expired, so the scan of the list meets what the scan of everything meets. */
  lemma StuckAlike(run: seq<Op>, limit: Time)
    requires Monotone(run, limit)
    ensures Stuck(Exec(run), limit) <==> Stuck(Appended(run), limit)
  {
    hide Exec, Appended, Monotone, Expired;
    var removed := RemovedPrefix(run, limit);
    CutoffAfterPrefix(Appended(run), removed, limit);
  }
}
