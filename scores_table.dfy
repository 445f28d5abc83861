// The high-score table (ScoresTable.tsx): the trophy shown beside the first
// three ranks, and the state kept around fetching the scores — a throttle of
// 2000 ms between fetches, a guard against overlapping requests, and a
// refresh trigger that fires a fetch once per new value. The clock
// (`Date.now()`) and the outcome of the remote query are parameters; the
// asynchronous request is split into its start (`BeginFetch`) and its
// completion (`CompleteFetch`).
module Scores {
  import opened TetrisTypes

  /** A row of the scores table. */
  datatype Score = Score(id: int, name: string, score: int, timeElapsed: int, createdAt: string)

  /** What awaiting `getHighScores(10)` produced: a result object with its
      `success` flag and possibly-null `data`, or a thrown exception. */
  datatype FetchOutcome = Returned(success: bool, data: Option<seq<Score>>) | Threw

  /** `MIN_FETCH_INTERVAL`, in milliseconds. */
  const MinFetchInterval: int := 2000

  const LoadError: string := "Failed to load scores"

  const Trophy: string := "\U{1F3C6}"
  const SecondPlace: string := "\U{1F948}"
  const ThirdPlace: string := "\U{1F949}"

  /** `getTrophyEmoji`: a medal for ranks 1 to 3, nothing for any other rank. */
  function TrophyEmoji(position: int): (r: string)
    ensures r == "" <==> !(1 <= position <= 3)
    ensures position == 1 ==> r == Trophy
    ensures position == 2 ==> r == SecondPlace
    ensures position == 3 ==> r == ThirdPlace
    ensures 1 <= position <= 3 ==> |r| == 1
  {
    match position
    case 1 => Trophy
    case 2 => SecondPlace
    case 3 => ThirdPlace
    case _ => ""
  }

  /** The three medals are different, so the podium ranks are told apart. */
  lemma TrophyEmojiInjective(p: int, q: int)
    requires 1 <= p <= 3 && 1 <= q <= 3
    ensures TrophyEmoji(p) == TrophyEmoji(q) <==> p == q
  {
  }

  /** The two guards at the top of `fetchScores`: a fetch goes ahead only
      when at least 2000 ms have passed since the last accepted one and no
      request is in flight. */
  function FetchAllowed(now: int, lastFetchTime: int, isRequestInProgress: bool): (r: bool)
    ensures r <==> now >= lastFetchTime + MinFetchInterval && !isRequestInProgress
  {
    !(now - lastFetchTime < MinFetchInterval) && !isRequestInProgress
  }

  /** Once a fetch is accepted at `now`, every fetch in the next 2000 ms is
      refused, even after the request has completed; from `now + 2000` on one
      is allowed again. */
  lemma ThrottleWindow(now: int, later: int)
    ensures now <= later < now + MinFetchInterval ==> !FetchAllowed(later, now, false)
    ensures later >= now + MinFetchInterval ==> FetchAllowed(later, now, false)
  {
  }

  /** The refresh effect's condition: the trigger is present, truthy, positive
      and different from the last one acted upon. */
  function ShouldRefresh(trigger: Option<int>, lastRefreshTrigger: int): (r: bool)
    ensures r <==> trigger.Some? && trigger.value > 0 && trigger.value != lastRefreshTrigger
  {
    trigger.Some? && trigger.value != 0 && trigger.value > 0 && trigger.value != lastRefreshTrigger
  }

  /** A trigger value, once recorded, never fires again. */
  lemma RefreshFiresOnce(trigger: Option<int>, last: int)
    requires ShouldRefresh(trigger, last)
    ensures trigger.value > 0 && !ShouldRefresh(trigger, trigger.value)
  {
  }

  /** Did the awaited request produce data to show? */
  predicate Loaded(outcome: FetchOutcome)
  {
    outcome.Returned? && outcome.success && outcome.data.Some?
  }

  class ScoresTable {
    var scores: seq<Score>
    var loading: bool
    var error: Option<string>
    var lastRefreshTrigger: int
    var isRequestInProgress: bool
    var lastFetchTime: int

    /** Initial state: no scores, loading, no error, nothing fetched yet. */
    constructor ()
      ensures scores == [] && loading && error == None
      ensures lastRefreshTrigger == 0 && !isRequestInProgress && lastFetchTime == 0
    {
      scores := [];
      loading := true;
      error := None;
      lastRefreshTrigger := 0;
      isRequestInProgress := false;
      lastFetchTime := 0;
    }

    /** The synchronous part of `fetchScores`, up to the `await`. A fetch
        within 2000 ms of the last accepted one, or while a request is in
        flight, changes nothing; an accepted one marks a request in flight,
        shows the spinner, clears the error and records `now`. */
    method BeginFetch(now: int) returns (accepted: bool)
      modifies this
      ensures accepted == FetchAllowed(now, old(lastFetchTime), old(isRequestInProgress))
      ensures !accepted ==>
                && scores == old(scores) && loading == old(loading) && error == old(error)
                && isRequestInProgress == old(isRequestInProgress) && lastFetchTime == old(lastFetchTime)
      ensures accepted ==>
                && isRequestInProgress && loading && error == None && lastFetchTime == now
                && scores == old(scores)
      ensures lastRefreshTrigger == old(lastRefreshTrigger)
    {
      if now - lastFetchTime < MinFetchInterval {
        return false;
      }
      if isRequestInProgress {
        return false;
      }
      isRequestInProgress := true;
      loading := true;
      error := None;
      lastFetchTime := now;
      accepted := true;
    }

    /** The part of `fetchScores` after the `await`: data replaces the scores;
        a failed result or an exception keeps the old scores and sets the
        error; in every case the spinner stops and the request is over. */
    method CompleteFetch(outcome: FetchOutcome)
      requires isRequestInProgress
      modifies this
      ensures Loaded(outcome) ==> scores == outcome.data.value && error == old(error)
      ensures !Loaded(outcome) ==> scores == old(scores) && error == Some(LoadError)
      ensures !loading && !isRequestInProgress
      ensures lastFetchTime == old(lastFetchTime) && lastRefreshTrigger == old(lastRefreshTrigger)
    {
      match outcome {
        case Returned(success, data) =>
          if success && data.Some? {
            scores := data.value;
          } else {
            error := Some(LoadError);
          }
        case Threw =>
          error := Some(LoadError);
      }
      loading := false;
      isRequestInProgress := false;
    }

    /** `fetchScores` with no other event between its start and its end. */
    method FetchScores(now: int, outcome: FetchOutcome) returns (accepted: bool)
      modifies this
      ensures accepted == FetchAllowed(now, old(lastFetchTime), old(isRequestInProgress))
      ensures !accepted ==>
                && scores == old(scores) && loading == old(loading) && error == old(error)
                && isRequestInProgress == old(isRequestInProgress) && lastFetchTime == old(lastFetchTime)
      ensures accepted ==>
                && !loading && !isRequestInProgress && lastFetchTime == now
                && (Loaded(outcome) ==> scores == outcome.data.value && error == None)
                && (!Loaded(outcome) ==> scores == old(scores) && error == Some(LoadError))
      ensures lastRefreshTrigger == old(lastRefreshTrigger)
    {
      accepted := BeginFetch(now);
      if accepted {
        CompleteFetch(outcome);
      }
    }

    /** The effect on `refreshTrigger`: a new positive trigger is recorded and
        a fetch is attempted (which the throttle may still drop); afterwards
        the same trigger value no longer qualifies. */
    method OnRefreshTrigger(trigger: Option<int>, now: int, outcome: FetchOutcome) returns (fetched: bool)
      modifies this
      ensures !ShouldRefresh(trigger, old(lastRefreshTrigger)) ==>
                && !fetched && lastRefreshTrigger == old(lastRefreshTrigger)
                && scores == old(scores) && loading == old(loading) && error == old(error)
                && isRequestInProgress == old(isRequestInProgress) && lastFetchTime == old(lastFetchTime)
      ensures ShouldRefresh(trigger, old(lastRefreshTrigger)) ==>
                && lastRefreshTrigger == trigger.value
                && fetched == FetchAllowed(now, old(lastFetchTime), old(isRequestInProgress))
      ensures !fetched ==>
                && scores == old(scores) && loading == old(loading) && error == old(error)
                && isRequestInProgress == old(isRequestInProgress) && lastFetchTime == old(lastFetchTime)
      ensures fetched ==>
                && lastFetchTime == now && !loading && !isRequestInProgress
                && (Loaded(outcome) ==> scores == outcome.data.value && error == None)
                && (!Loaded(outcome) ==> scores == old(scores) && error == Some(LoadError))
      ensures !ShouldRefresh(trigger, lastRefreshTrigger)
    {
      fetched := false;
      if ShouldRefresh(trigger, lastRefreshTrigger) {
        lastRefreshTrigger := trigger.value;
        fetched := FetchScores(now, outcome);
      }
    }
  }
}
