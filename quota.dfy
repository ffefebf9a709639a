/**
 * The daily quota and de-duplication log of the scanner: how many
 * opportunities were handed out today, the id of the last match handed
 * out, and the ids of all of them. It rolls over when the date changes,
 * an operator can reset it, and each successful query commits one match.
 */
module Quota {
  import opened Arbitrage

  /** At most this many opportunities are handed out per calendar day. */
  const DAILY_MATCH_LIMIT: nat := 12

  /** A snapshot of the log's four fields. */
  datatype LogState = LogState(date: string, count: int, lastSentMatchId: int, sentMatches: seq<int>)

  /** What one query answers, with the day's count after the query. */
  datatype Response =
    | LimitReached(count: int)
    | Found(opportunity: Opportunity, count: int)
    | NoArbitrage(count: int)

  /** The empty log of a day; it satisfies the log invariant. */
  function FreshLog(today: string): (r: LogState)
    ensures r.date == today && Invariant(r)
  {
    LogState(today, 0, 0, [])
  }

  /**
   * The log as seen on `today`: an older day's log is replaced by an empty
   * one. The result is dated today and keeps the log invariant.
   */
  function RollOver(s: LogState, today: string): (r: LogState)
    ensures r.date == today
    ensures Invariant(s) ==> Invariant(r)
  {
    if s.date != today then FreshLog(today) else s
  }

  /**
   * The log after handing out match `id`. Committing an id above the last
   * one, below the limit, keeps the log invariant.
   */
  function Commit(s: LogState, id: int): (r: LogState)
    ensures Invariant(s) && s.count < DAILY_MATCH_LIMIT && id > s.lastSentMatchId ==> Invariant(r)
  {
    LogState(s.date, s.count + 1, id, s.sentMatches + [id])
  }

  /**
   * A match may be handed out only if its id is above the last one and not
   * yet sent. Under the log invariant the membership condition adds
   * nothing: a match is eligible exactly when its id is above the last id.
   */
  predicate Eligible(s: LogState, id: int)
    ensures Invariant(s) ==> (Eligible(s, id) <==> id > s.lastSentMatchId)
  {
    id > s.lastSentMatchId && id !in s.sentMatches
  }

  predicate StrictlyIncreasing(ids: seq<int>)
  {
    forall p, q :: 0 <= p < q < |ids| ==> ids[p] < ids[q]
  }

  /**
   * What every reachable log satisfies: the count is the number of ids
   * sent and at most the limit, the ids were sent in increasing order, and
   * the last one sent is the last id recorded (0 on an empty day).
   */
  predicate Invariant(s: LogState)
  {
    s.count == |s.sentMatches| <= DAILY_MATCH_LIMIT &&
    StrictlyIncreasing(s.sentMatches) &&
    if s.sentMatches == [] then s.lastSentMatchId == 0
    else s.lastSentMatchId == s.sentMatches[|s.sentMatches| - 1]
  }

  /**
   * Rolling over empties a log of another day, leaves a log of today alone,
   * and doing it twice is the same as doing it once.
   */
  lemma RollOverProperties(s: LogState, today: string)
    ensures s.date == today ==> RollOver(s, today) == s
    ensures s.date != today ==> RollOver(s, today) == FreshLog(today)
    ensures RollOver(RollOver(s, today), today) == RollOver(s, today)
  {
  }

  /** Every id recorded is at most the last id sent. */
  lemma SentAtMostLast(s: LogState)
    requires Invariant(s)
    ensures forall p :: 0 <= p < |s.sentMatches| ==> s.sentMatches[p] <= s.lastSentMatchId
  {
    forall p | 0 <= p < |s.sentMatches|
      ensures s.sentMatches[p] <= s.lastSentMatchId
    {
      if p < |s.sentMatches| - 1 {
        assert s.sentMatches[p] < s.sentMatches[|s.sentMatches| - 1];
      }
    }
  }

  /**
   * Committing an eligible match below the limit keeps the invariant, adds
   * exactly one to the count, and makes that match (and every lower id)
   * ineligible in the new log; `SentStaysIneligible` and
   * `LowerStaysIneligible` carry this through the rest of the day.
   */
  lemma CommitKeepsInvariant(s: LogState, id: int)
    requires Invariant(s) && s.count < DAILY_MATCH_LIMIT && id > s.lastSentMatchId
    ensures Invariant(Commit(s, id))
    ensures id !in s.sentMatches
    ensures Commit(s, id).count == s.count + 1
    ensures forall id' :: id' <= id ==> !Eligible(Commit(s, id), id')
  {
    SentAtMostLast(s);
    var t := s.sentMatches + [id];
    forall p, q | 0 <= p < q < |t|
      ensures t[p] < t[q]
    {
      if q == |t| - 1 {
        assert t[p] == s.sentMatches[p];
      }
    }
  }

  /** Under the invariant no id was handed out twice in the day. */
  lemma NoDuplicates(s: LogState)
    requires Invariant(s)
    ensures forall p, q :: 0 <= p < |s.sentMatches| && 0 <= q < |s.sentMatches| && p != q ==>
      s.sentMatches[p] != s.sentMatches[q]
  {
    forall p, q | 0 <= p < |s.sentMatches| && 0 <= q < |s.sentMatches| && p != q
      ensures s.sentMatches[p] != s.sentMatches[q]
    {
      if p < q {
        assert s.sentMatches[p] < s.sentMatches[q];
      } else {
        assert s.sentMatches[q] < s.sentMatches[p];
      }
    }
  }

  /**
   * One change of the log: the rollover check that starts every query, the
   * operator's reset, or a query committing match `id`.
   */
  datatype Event = NewDay(today: string) | Reset(today: string) | Surface(id: int)

  /** The log after one event; a commit that the limit or the dedup rule forbids changes nothing. */
  function Apply(s: LogState, e: Event): LogState
  {
    match e
    case NewDay(today) => RollOver(s, today)
    case Reset(today) => FreshLog(today)
    case Surface(id) =>
      if s.count < DAILY_MATCH_LIMIT && Eligible(s, id) then Commit(s, id) else s
  }

  /** The log after a sequence of events, oldest first. */
  function Replay(s: LogState, events: seq<Event>): LogState
    decreases |events|
  {
    if events == [] then s else Replay(Apply(s, events[0]), events[1..])
  }

  /**
   * Across any sequence of rollovers, resets and commits, the count stays
   * equal to the number of ids sent and within the daily limit, and the ids
   * sent stay strictly increasing.
   */
  lemma {:induction false} ReplayKeepsInvariant(s: LogState, events: seq<Event>)
    requires Invariant(s)
    ensures Invariant(Replay(s, events))
    decreases |events|
  {
    if events != [] {
      ReplayKeepsInvariant(Apply(s, events[0]), events[1..]);
    }
  }

  /** The events stay within the day `date`: commits, and rollover checks on that same day. */
  predicate SameDay(date: string, events: seq<Event>)
  {
    forall k :: 0 <= k < |events| ==>
      events[k].Surface? || (events[k].NewDay? && events[k].today == date)
  }

  /**
   * A match sent today stays recorded, and so is never eligible again, for
   * as long as the day does not change and nobody resets the log.
   */
  lemma {:induction false} SentStaysIneligible(s: LogState, events: seq<Event>, id: int)
    requires id in s.sentMatches && SameDay(s.date, events)
    ensures var s' := Replay(s, events);
      s'.date == s.date && id in s'.sentMatches && !Eligible(s', id)
    decreases |events|
  {
    if events != [] {
      var s1 := Apply(s, events[0]);
      assert s1.date == s.date && id in s1.sentMatches;
      assert SameDay(s1.date, events[1..]) by {
        forall k | 0 <= k < |events[1..]|
          ensures events[1..][k].Surface? || (events[1..][k].NewDay? && events[1..][k].today == s1.date)
        {
          assert events[1..][k] == events[k + 1];
        }
      }
      SentStaysIneligible(s1, events[1..], id);
    }
  }

  /**
   * An id at or below the last id sent, whether it was sent or not, stays
   * at or below it, and so is never eligible again, for as long as the day
   * does not change and nobody resets the log.
   */
  lemma {:induction false} LowerStaysIneligible(s: LogState, events: seq<Event>, id: int)
    requires id <= s.lastSentMatchId && SameDay(s.date, events)
    ensures var s' := Replay(s, events);
      s'.date == s.date && id <= s'.lastSentMatchId && !Eligible(s', id)
    decreases |events|
  {
    if events != [] {
      var s1 := Apply(s, events[0]);
      assert s1.date == s.date && id <= s1.lastSentMatchId;
      assert SameDay(s1.date, events[1..]) by {
        forall k | 0 <= k < |events[1..]|
          ensures events[1..][k].Surface? || (events[1..][k].NewDay? && events[1..][k].today == s1.date)
        {
          assert events[1..][k] == events[k + 1];
        }
      }
      LowerStaysIneligible(s1, events[1..], id);
    }
  }

  predicate AllPositiveOdds(matches: seq<Match>)
  {
    forall p :: 0 <= p < |matches| ==> PositiveOdds(matches[p])
  }

  /** No eligible match among the first `n` of the list has an opportunity. */
  ghost predicate NoneBefore(s: LogState, matches: seq<Match>, n: int)
    requires AllPositiveOdds(matches) && n <= |matches|
  {
    forall q :: 0 <= q < n && Eligible(s, matches[q].id) ==> !HasArb(matches[q])
  }

  /**
   * The DAILY_LOG record. Its fields are changed in place by the three
   * operations below; `today` and the list of matches are inputs.
   */
  class DailyLog {
    var date: string
    var count: int
    var lastSentMatchId: int
    var sentMatches: seq<int>

    function State(): LogState
      reads this
    {
      LogState(date, count, lastSentMatchId, sentMatches)
    }

    ghost predicate Valid()
      reads this
    {
      Invariant(State())
    }

    constructor (today: string)
      ensures State() == FreshLog(today) && Valid()
    {
      date, count, lastSentMatchId, sentMatches := today, 0, 0, [];
    }

    /** Starts a new, empty log when the stored date is not `today`. */
    method UpdateDailyLog(today: string)
      modifies this
      ensures State() == RollOver(old(State()), today)
      ensures old(Valid()) ==> Valid()
    {
      if date != today {
        date, count, lastSentMatchId, sentMatches := today, 0, 0, [];
      }
    }

    /** The operator's reset: an empty log for `today`, whatever was there. */
    method ResetDaily(today: string)
      modifies this
      ensures State() == FreshLog(today) && Valid()
    {
      date, count, lastSentMatchId, sentMatches := today, 0, 0, [];
    }

    /**
     * Answers one query: after rolling over, report the limit if it is
     * reached; otherwise hand out the best opportunity of the first
     * eligible match, in list order, that has one, and commit it.
     */
    method NextArbOpportunity(today: string, matches: seq<Match>) returns (resp: Response)
      requires Valid() && AllPositiveOdds(matches)
      modifies this
      ensures Valid() && date == today
      ensures var s := RollOver(old(State()), today);
        match resp
        case LimitReached(c) =>
          s.count >= DAILY_MATCH_LIMIT && State() == s && c == s.count
        case NoArbitrage(c) =>
          s.count < DAILY_MATCH_LIMIT && State() == s && c == s.count &&
          NoneBefore(s, matches, |matches|)
        case Found(o, c) =>
          s.count < DAILY_MATCH_LIMIT && c == s.count + 1 &&
          exists p :: 0 <= p < |matches| && matches[p].id == o.matchId &&
            Eligible(s, o.matchId) && NoneBefore(s, matches, p) &&
            BestArb(matches[p], Some(o)) && State() == Commit(s, o.matchId)
      ensures State() == Replay(old(State()),
        if resp.Found? then [NewDay(today), Surface(resp.opportunity.matchId)] else [NewDay(today)])
    {
      UpdateDailyLog(today);
      ghost var s := State();
      assert [NewDay(today)][1..] == [];
      if count >= DAILY_MATCH_LIMIT {
        return LimitReached(count);
      }
      for p := 0 to |matches|
        invariant State() == s
        invariant NoneBefore(s, matches, p)
      {
        var m := matches[p];
        if m.id > lastSentMatchId && m.id !in sentMatches {
          var opportunity := FindBestArb(m);
          if opportunity.Some? {
            ReturnedLegs(m, opportunity);
            CommitKeepsInvariant(s, m.id);
            count := count + 1;
            lastSentMatchId := m.id;
            sentMatches := sentMatches + [m.id];
            resp := Found(opportunity.value, count);
            assert Replay(s, [Surface(m.id)]) == Commit(s, m.id) by {
              assert [Surface(m.id)][1..] == [];
            }
            assert [NewDay(today), Surface(m.id)][1..] == [Surface(m.id)];
            return;
          }
        }
      }
      return NoArbitrage(count);
    }
  }
}
