/**
 * find_latest_complete_run_date: probe the last ten days, newest first, for
 * the object of the last forecast hour, and return the first day whose
 * object exists.
 */
module RunDate {
  import opened Wrappers

  /** A calendar day, counted in days (only differences of days matter here). */
  type Day = int

  /**
   * How the object-store head request for one key ends. A client error
   * whose code is "404" is `NotFound`; `OtherError` carries every other
   * code, so it never carries "404".
   */
  datatype HeadOutcome = Exists | NotFound | OtherError(code: string)

  datatype ResolveError =
    | S3Error(code: string)   // the client error is re-raised
    | NoCompleteRun           // ValueError after ten 404s

  /** The lookback window: offsets 0 .. 9. */
  const Lookback: nat := 10

  /**
   * The head outcome for the run `offset` days before `today`; `keyFor` is
   * get_grib_s3_key and `head` the object-store head request. The same
   * function appears as `FileFetch.Layout.s3Key`, there on calendar dates;
   * this module only needs day numbers, so it takes its own parameter.
   */
  function Answer(head: string -> HeadOutcome, keyFor: (Day, int) -> string, today: Day, maxHours: int, offset: int): HeadOutcome {
    head(keyFor(today - offset, maxHours))
  }

  /** Reference definition: the outcome of probing offsets i .. Lookback - 1. */
  function ResolveFrom(head: string -> HeadOutcome, keyFor: (Day, int) -> string, today: Day, maxHours: int, i: nat): Result<Day, ResolveError>
    requires i <= Lookback
    decreases Lookback - i
  {
    if i == Lookback then Failure(NoCompleteRun)
    else
      match Answer(head, keyFor, today, maxHours, i)
      case Exists => Success(today - i)
      case NotFound => ResolveFrom(head, keyFor, today, maxHours, i + 1)
      case OtherError(code) => Failure(S3Error(code))
  }

  function Resolve(head: string -> HeadOutcome, keyFor: (Day, int) -> string, today: Day, maxHours: int): Result<Day, ResolveError> {
    ResolveFrom(head, keyFor, today, maxHours, 0)
  }

  /** Every offset in start .. i - 1 answered 404. */
  predicate NotFoundBetween(head: string -> HeadOutcome, keyFor: (Day, int) -> string, today: Day, maxHours: int, start: int, i: int) {
    forall j :: start <= j < i ==> Answer(head, keyFor, today, maxHours, j) == NotFound
  }

  /**
   * The loop of the source. `probed` lists the days whose object was
   * head-checked, in the order of the checks.
   */
  method FindLatestCompleteRunDate(head: string -> HeadOutcome, keyFor: (Day, int) -> string, today: Day, maxHours: int)
    returns (r: Result<Day, ResolveError>, probed: seq<Day>)
    ensures r == Resolve(head, keyFor, today, maxHours)
    ensures 1 <= |probed| <= Lookback
    ensures forall k :: 0 <= k < |probed| ==> probed[k] == today - k
    ensures NotFoundBetween(head, keyFor, today, maxHours, 0, |probed| - 1)
    ensures r.Success? ==>
      r.value == probed[|probed| - 1] && Answer(head, keyFor, today, maxHours, |probed| - 1) == Exists
    ensures r.Failure? && r.error.S3Error? ==>
      Answer(head, keyFor, today, maxHours, |probed| - 1) == OtherError(r.error.code)
    ensures r == Failure(NoCompleteRun) ==>
      |probed| == Lookback && Answer(head, keyFor, today, maxHours, |probed| - 1) == NotFound
  {
    probed := [];
    for i := 0 to Lookback
      invariant |probed| == i
      invariant forall k :: 0 <= k < i ==> probed[k] == today - k
      invariant NotFoundBetween(head, keyFor, today, maxHours, 0, i)
      invariant Resolve(head, keyFor, today, maxHours) == ResolveFrom(head, keyFor, today, maxHours, i)
    {
      var checkDate := today - i;
      var key := keyFor(checkDate, maxHours);
      probed := probed + [checkDate];
      match head(key)
      case Exists =>
        return Success(checkDate), probed;
      case NotFound =>
      case OtherError(code) =>
        return Failure(S3Error(code)), probed;
    }
    r := Failure(NoCompleteRun);
  }

  lemma {:induction false} ResolveFromSuccess(head: string -> HeadOutcome, keyFor: (Day, int) -> string, today: Day, maxHours: int, start: nat, i: nat)
    requires start <= i < Lookback
    ensures ResolveFrom(head, keyFor, today, maxHours, start) == Success(today - i) <==>
      NotFoundBetween(head, keyFor, today, maxHours, start, i) && Answer(head, keyFor, today, maxHours, i) == Exists
    decreases i - start
  {
    if Answer(head, keyFor, today, maxHours, start) == NotFound {
      if start < i {
        ResolveFromSuccess(head, keyFor, today, maxHours, start + 1, i);
      } else {
        ResolveFromBound(head, keyFor, today, maxHours, start + 1);
      }
    }
  }

  /** Probing from offset `start` can only return a day at least `start` days back. */
  lemma {:induction false} ResolveFromBound(head: string -> HeadOutcome, keyFor: (Day, int) -> string, today: Day, maxHours: int, start: nat)
    requires start <= Lookback
    ensures ResolveFrom(head, keyFor, today, maxHours, start).Success? ==>
      ResolveFrom(head, keyFor, today, maxHours, start).value <= today - start
    decreases Lookback - start
  {
    if start < Lookback && Answer(head, keyFor, today, maxHours, start) == NotFound {
      ResolveFromBound(head, keyFor, today, maxHours, start + 1);
    }
  }

  lemma {:induction false} ResolveFromError(head: string -> HeadOutcome, keyFor: (Day, int) -> string, today: Day, maxHours: int, start: nat, i: nat, code: string)
    requires start <= i < Lookback
    requires NotFoundBetween(head, keyFor, today, maxHours, start, i)
    requires Answer(head, keyFor, today, maxHours, i) == OtherError(code)
    ensures ResolveFrom(head, keyFor, today, maxHours, start) == Failure(S3Error(code))
    decreases i - start
  {
    if start < i {
      ResolveFromError(head, keyFor, today, maxHours, start + 1, i, code);
    }
  }

  lemma {:induction false} ResolveFromExhausted(head: string -> HeadOutcome, keyFor: (Day, int) -> string, today: Day, maxHours: int, start: nat)
    requires start <= Lookback
    ensures ResolveFrom(head, keyFor, today, maxHours, start) == Failure(NoCompleteRun) <==>
      NotFoundBetween(head, keyFor, today, maxHours, start, Lookback)
    decreases Lookback - start
  {
    if start < Lookback {
      ResolveFromExhausted(head, keyFor, today, maxHours, start + 1);
    }
  }

  /**
   * The resolver returns day `today - i` exactly when offset i is the first
   * of the ten whose object exists, every earlier one answering 404.
   */
  lemma ResolveFindsFirstComplete(head: string -> HeadOutcome, keyFor: (Day, int) -> string, today: Day, maxHours: int, i: nat)
    requires i < Lookback
    ensures Resolve(head, keyFor, today, maxHours) == Success(today - i) <==>
      NotFoundBetween(head, keyFor, today, maxHours, 0, i) && Answer(head, keyFor, today, maxHours, i) == Exists
  {
    ResolveFromSuccess(head, keyFor, today, maxHours, 0, i);
  }

  /** Any error other than a 404 stops the search at the day that raised it. */
  lemma ResolveStopsOnOtherError(head: string -> HeadOutcome, keyFor: (Day, int) -> string, today: Day, maxHours: int, i: nat, code: string)
    requires i < Lookback
    requires NotFoundBetween(head, keyFor, today, maxHours, 0, i)
    requires Answer(head, keyFor, today, maxHours, i) == OtherError(code)
    ensures Resolve(head, keyFor, today, maxHours) == Failure(S3Error(code))
  {
    ResolveFromError(head, keyFor, today, maxHours, 0, i, code);
  }

  /** ValueError is raised exactly when all ten days answered 404. */
  lemma ResolveFailsWhenNoneComplete(head: string -> HeadOutcome, keyFor: (Day, int) -> string, today: Day, maxHours: int)
    ensures Resolve(head, keyFor, today, maxHours) == Failure(NoCompleteRun) <==>
      NotFoundBetween(head, keyFor, today, maxHours, 0, Lookback)
  {
    ResolveFromExhausted(head, keyFor, today, maxHours, 0);
  }

  /**
   * A namespace in which only the runs of D-3 and D-7 are complete: the
   * newer of the two, D-3, is chosen.
   */
  lemma NewestCompleteRunWins(keyFor: (Day, int) -> string, today: Day, maxHours: int)
    requires forall d1, d2 :: keyFor(d1, maxHours) == keyFor(d2, maxHours) ==> d1 == d2
    ensures Resolve(
      k => if k == keyFor(today - 3, maxHours) || k == keyFor(today - 7, maxHours) then Exists else NotFound,
      keyFor, today, maxHours) == Success(today - 3)
  {
    var head := k => if k == keyFor(today - 3, maxHours) || k == keyFor(today - 7, maxHours) then Exists else NotFound;
    ResolveFindsFirstComplete(head, keyFor, today, maxHours, 3);
  }
}
